/**
 The command dispatcher's acknowledgements: the queue that command goroutines append to and
 the push loop empties, with its reused backing array, and what each command invocation
 contributes to it under every interleaving, including panics and privacy refusals.
 */
module Dispatcher {

  datatype Status = AckRunning | Success | Failure

  datatype Ack = Ack(commandId: string, commandType: string, status: Status)

  // ---- The queue ----

  ghost function Contents(batches: seq<array<Ack>>): seq<Ack>
    reads batches
  {
    if batches == [] then []
    else Contents(batches[..|batches| - 1]) + batches[|batches| - 1][..]
  }

  /** A new array of the given size that starts with the first `n` acks of `src`. */
  method Copied(src: array<Ack>, n: nat, size: nat) returns (dst: array<Ack>)
    requires n <= src.Length && n <= size
    ensures fresh(dst) && dst.Length == size && dst[..n] == src[..n]
  {
    dst := new Ack[size];
    for i := 0 to n
      invariant dst[..i] == src[..i]
    {
      dst[i] := src[i];
    }
  }

  /** pendingAcks is `buf[..len]`. The ghost fields remember every ack ever added and every
      batch ever handed out. */
  class AckQueue {
    var buf: array<Ack>
    var len: nat
    ghost var added: seq<Ack>
    ghost var batches: seq<array<Ack>>

    /** All returned batches followed by the pending list are the acks added so far, and no
        batch shares the array that later appends write to. */
    ghost predicate Valid()
      reads this, buf, batches
    {
      && len <= buf.Length
      && buf !in batches
      && Contents(batches) + buf[..len] == added
    }

    constructor ()
      ensures Valid() && fresh(buf) && added == [] && batches == []
    {
      buf := new Ack[0];
      len, added, batches := 0, [], [];
    }

    /** addAck: append in place while the array has room, into a larger copy otherwise. */
    method AddAck(ack: Ack)
      requires Valid()
      modifies this, buf
      ensures Valid() && (buf == old(buf) || fresh(buf))
      ensures added == old(added) + [ack] && batches == old(batches)
      ensures buf[..len] == old(buf[..len]) + [ack]
      ensures forall b | b in batches :: b[..] == old(b[..])
    {
      if len == buf.Length {
        buf := Copied(buf, len, 2 * len + 1);
      }
      buf[len] := ack;
      len := len + 1;
      added := added + [ack];
      assert buf[..len] == buf[..len - 1] + [ack];
    }

    /** GetAndClearAcks: hand out a copy, then truncate the list but keep its array. */
    method GetAndClearAcks() returns (acks: array<Ack>)
      requires Valid()
      modifies this
      ensures Valid() && fresh(acks)
      ensures acks[..] == old(buf[..len]) && len == 0 && buf == old(buf)
      ensures added == old(added) && batches == old(batches) + [acks]
    {
      acks := Copied(buf, len, len);
      assert acks[..] == acks[..len];
      ghost var before := batches;
      batches := batches + [acks];
      len := 0;
      assert batches[..|batches| - 1] == before;
    }
  }

  // ---- Command invocations ----

  datatype Command = Command(id: string, cmdType: string, expectedExit: int)

  /** How a handler ends, if it ends: an error, a plain result, or a script result. */
  datatype Outcome = Failed | Returned | Script(exitCode: int)

  /** Where the goroutine of one invocation is. */
  datatype Phase =
    | AtGate
    | InHandler
    | AtTail(outcome: Outcome)
    | Unwinding
    | Returning(sent: Status)
    | Ended(sent: Status)

  datatype Entry = Entry(invocation: nat, ack: Ack)

  datatype State = State(cmds: seq<Command>, phases: seq<Phase>, log: seq<Entry>,
                         batches: seq<seq<Entry>>, pending: seq<Entry>)

  datatype Step =
    | Receive(cmd: Command)
    | Admit(i: nat)
    | Refuse(i: nat)
    | Finish(i: nat, outcome: Outcome)
    | Panic(i: nat)
    | SendTail(i: nat)
    | Recover(i: nat)
    | Leave(i: nat)
    | Drain

  const INIT := State([], [], [], [], [])

  /** The status the tail of executeCommand chooses. */
  function TailStatus(cmd: Command, outcome: Outcome): Status {
    match outcome
    case Failed => Failure
    case Returned => Success
    case Script(code) => if cmd.cmdType == "run_script" && code != cmd.expectedExit then Failure else Success
  }

  function Add(s: State, i: nat, status: Status): State
    requires i < |s.cmds|
  {
    var e := Entry(i, Ack(s.cmds[i].id, s.cmds[i].cmdType, status));
    s.(log := s.log + [e], pending := s.pending + [e])
  }

  function Move(s: State, i: nat, p: Phase): State
    requires i < |s.phases|
  {
    s.(phases := s.phases[i := p])
  }

  /** One step of one goroutine; a step that is not possible changes nothing. */
  function Apply(s: State, step: Step): State
    requires |s.cmds| == |s.phases|
    ensures |Apply(s, step).cmds| == |Apply(s, step).phases|
  {
    var n := |s.phases|;
    match step
    case Receive(cmd) =>
      Add(s.(cmds := s.cmds + [cmd], phases := s.phases + [AtGate]), n, AckRunning)
    case Admit(i) => if i < n && s.phases[i].AtGate? then Move(s, i, InHandler) else s
    case Refuse(i) =>
      if i < n && s.phases[i].AtGate? then Move(Add(s, i, Failure), i, Returning(Failure)) else s
    case Finish(i, outcome) => if i < n && s.phases[i].InHandler? then Move(s, i, AtTail(outcome)) else s
    case Panic(i) =>
      if i < n && (s.phases[i].AtGate? || s.phases[i].InHandler? || s.phases[i].AtTail?)
      then Move(s, i, Unwinding) else s
    case SendTail(i) =>
      if i < n && s.phases[i].AtTail? then
        var status := TailStatus(s.cmds[i], s.phases[i].outcome);
        Move(Add(s, i, status), i, Returning(status))
      else s
    case Recover(i) =>
      if i < n && s.phases[i].Unwinding? then Move(Add(s, i, Failure), i, Ended(Failure)) else s
    case Leave(i) => if i < n && s.phases[i].Returning? then Move(s, i, Ended(s.phases[i].sent)) else s
    case Drain => s.(batches := s.batches + [s.pending], pending := [])
  }

  function Run(steps: seq<Step>): (s: State)
    ensures |s.cmds| == |s.phases|
  {
    if steps == [] then INIT else Apply(Run(steps[..|steps| - 1]), steps[|steps| - 1])
  }

  function Flatten(batches: seq<seq<Entry>>): seq<Entry> {
    if batches == [] then [] else Flatten(batches[..|batches| - 1]) + batches[|batches| - 1]
  }

  /** What one invocation contributed to the log, in order. */
  function Of(log: seq<Entry>, i: nat): seq<Ack> {
    if log == [] then []
    else Of(log[..|log| - 1], i) + if log[|log| - 1].invocation == i then [log[|log| - 1].ack] else []
  }

  function Sent(p: Phase): seq<Status> {
    match p
    case Returning(sent) => [sent]
    case Ended(sent) => [sent]
    case _ => []
  }

  /** The acks an invocation must have contributed by the time it is in a phase. */
  function Expected(cmd: Command, p: Phase): seq<Ack> {
    [Ack(cmd.id, cmd.cmdType, AckRunning)] +
    if Sent(p) == [] then [] else [Ack(cmd.id, cmd.cmdType, Sent(p)[0])]
  }

  predicate Consistent(s: State) {
    && |s.cmds| == |s.phases|
    && (forall k | 0 <= k < |s.log| :: s.log[k].invocation < |s.cmds|)
    && (forall i | 0 <= i < |s.cmds| :: Of(s.log, i) == Expected(s.cmds[i], s.phases[i]))
    && (forall i | 0 <= i < |s.phases| :: AckRunning !in Sent(s.phases[i]))
    && s.log == Flatten(s.batches) + s.pending
  }

  lemma OfSnoc(log: seq<Entry>, e: Entry, i: nat)
    ensures Of(log + [e], i) == Of(log, i) + if e.invocation == i then [e.ack] else []
  {
    assert (log + [e])[..|log|] == log;
  }

  lemma {:induction false} OfStranger(log: seq<Entry>, i: nat)
    requires forall k | 0 <= k < |log| :: log[k].invocation != i
    ensures Of(log, i) == []
  {
    if log != [] {
      OfStranger(log[..|log| - 1], i);
    }
  }

  /** Moving on without an ack. */
  lemma MoveKeeps(s: State, i: nat, p: Phase)
    requires Consistent(s) && i < |s.phases| && Sent(s.phases[i]) == Sent(p)
    ensures Consistent(Move(s, i, p))
  {
  }

  /** Sending the terminal ack. */
  lemma SendKeeps(s: State, i: nat, status: Status, p: Phase)
    requires Consistent(s) && i < |s.phases| && Sent(s.phases[i]) == []
    requires Sent(p) == [status] && status != AckRunning
    ensures Consistent(Move(Add(s, i, status), i, p))
  {
    var t := Move(Add(s, i, status), i, p);
    var e := t.log[|s.log|];
    forall k | 0 <= k < |t.cmds|
      ensures Of(t.log, k) == Expected(t.cmds[k], t.phases[k])
    {
      OfSnoc(s.log, e, k);
    }
    assert Flatten(t.batches) + (s.pending + [e]) == (Flatten(s.batches) + s.pending) + [e];
  }

  lemma ReceiveKeeps(s: State, cmd: Command)
    requires Consistent(s)
    ensures Consistent(Apply(s, Receive(cmd)))
  {
    var t := Apply(s, Receive(cmd));
    var n := |s.cmds|;
    var e := t.log[|s.log|];
    OfStranger(s.log, n);
    forall k | 0 <= k < |t.cmds|
      ensures Of(t.log, k) == Expected(t.cmds[k], t.phases[k])
    {
      OfSnoc(s.log, e, k);
    }
    assert Flatten(t.batches) + (s.pending + [e]) == (Flatten(s.batches) + s.pending) + [e];
  }

  lemma DrainKeeps(s: State)
    requires Consistent(s)
    ensures Consistent(Apply(s, Drain))
  {
    assert (s.batches + [s.pending])[..|s.batches|] == s.batches;
  }

  lemma QuietStepKeeps(s: State, step: Step)
    requires Consistent(s) && (step.Admit? || step.Finish? || step.Panic? || step.Leave?)
    ensures Consistent(Apply(s, step))
  {
    assert |s.cmds| == |s.phases|;
    var i := step.i;
    if i < |s.phases| {
      var was := s.phases[i];
      var p := if step.Admit? then InHandler
               else if step.Finish? then AtTail(step.outcome)
               else if step.Panic? then Unwinding
               else Ended(if was.Returning? then was.sent else Failure);
      if Sent(was) == Sent(p) {
        MoveKeeps(s, i, p);
      }
    }
    hide Consistent;
  }

  lemma SendingStepKeeps(s: State, step: Step)
    requires Consistent(s) && (step.Refuse? || step.SendTail? || step.Recover?)
    ensures Consistent(Apply(s, step))
  {
    assert |s.cmds| == |s.phases|;
    hide Consistent;
    var i := step.i;
    if i < |s.phases| {
      match step
      case Refuse(_) =>
        if s.phases[i].AtGate? { SendKeeps(s, i, Failure, Returning(Failure)); }
      case Recover(_) =>
        if s.phases[i].Unwinding? { SendKeeps(s, i, Failure, Ended(Failure)); }
      case SendTail(_) =>
        if s.phases[i].AtTail? {
          var status := TailStatus(s.cmds[i], s.phases[i].outcome);
          SendKeeps(s, i, status, Returning(status));
        }
    }
  }

  lemma ApplyKeepsConsistent(s: State, step: Step)
    requires Consistent(s)
    ensures Consistent(Apply(s, step))
  {
    assert |s.cmds| == |s.phases|;
    hide Consistent, Apply;
    match step
    case Receive(cmd) => ReceiveKeeps(s, cmd);
    case Drain => DrainKeeps(s);
    case _ =>
      if step.Refuse? || step.SendTail? || step.Recover? {
        SendingStepKeeps(s, step);
      } else {
        QuietStepKeeps(s, step);
      }
  }

  lemma {:induction false} RunIsConsistent(steps: seq<Step>)
    ensures Consistent(Run(steps))
  {
    if steps != [] {
      RunIsConsistent(steps[..|steps| - 1]);
      ApplyKeepsConsistent(Run(steps[..|steps| - 1]), steps[|steps| - 1]);
    }
  }

  /** Under every interleaving, the drained batches followed by the pending list are the acks in
      the order they were added, and an invocation that has ended contributed ack_running and
      then exactly one terminal ack. */
  lemma FinishedInvocations(steps: seq<Step>, s: State, i: nat)
    requires s == Run(steps) && i < |s.phases| && s.phases[i].Ended?
    ensures s.log == Flatten(s.batches) + s.pending
    ensures Of(s.log, i) == [Ack(s.cmds[i].id, s.cmds[i].cmdType, AckRunning),
                             Ack(s.cmds[i].id, s.cmds[i].cmdType, s.phases[i].sent)]
    ensures s.phases[i].sent != AckRunning
  {
    RunIsConsistent(steps);
    assert AckRunning !in Sent(s.phases[i]);
  }

  /** An invocation reports success only from the tail, after a result whose script exit code,
      if it ran a script, is the expected one. */
  lemma {:induction false} SuccessNeedsAResult(steps: seq<Step>, i: nat) returns (k: nat, outcome: Outcome)
    requires i < |Run(steps).phases| && Success in Sent(Run(steps).phases[i])
    ensures k < |steps| && steps[k] == Finish(i, outcome)
    ensures i < |Run(steps).cmds|
    ensures outcome.Returned? || outcome.Script?
    ensures outcome.Script? && Run(steps).cmds[i].cmdType == "run_script" ==>
              outcome.exitCode == Run(steps).cmds[i].expectedExit
  {
    var n := |steps| - 1;
    var before := Run(steps[..n]);
    if i < |before.phases| && Success in Sent(before.phases[i]) {
      k, outcome := SuccessNeedsAResult(steps[..n], i);
      CommandsAreKept(before, steps[n], i);
    } else {
      assert steps[n] == SendTail(i) && before.phases[i].AtTail?;
      outcome := before.phases[i].outcome;
      k := TailNeedsFinish(steps[..n], i);
    }
  }

  /** The tail reports success exactly after a result, and after a script exactly for the expected exit
      code; any error and any other exit code is a failure. */
  lemma TailDecides(s: State, i: nat)
    requires |s.cmds| == |s.phases| && i < |s.phases| && s.phases[i].AtTail?
    ensures var outcome, cmd, t := s.phases[i].outcome, s.cmds[i], Apply(s, SendTail(i));
            var good := outcome.Returned? ||
                        (outcome.Script? && (cmd.cmdType != "run_script" || outcome.exitCode == cmd.expectedExit));
            var status := if good then Success else Failure;
            && t.phases[i] == Returning(status)
            && t.log == s.log + [Entry(i, Ack(cmd.id, cmd.cmdType, status))]
            && t.pending == s.pending + [Entry(i, Ack(cmd.id, cmd.cmdType, status))]
  {
  }

  lemma CommandsAreKept(s: State, step: Step, i: nat)
    requires |s.cmds| == |s.phases| && i < |s.cmds|
    ensures i < |Apply(s, step).cmds| && Apply(s, step).cmds[i] == s.cmds[i]
  {
  }

  lemma {:induction false} TailNeedsFinish(steps: seq<Step>, i: nat) returns (k: nat)
    requires i < |Run(steps).phases| && Run(steps).phases[i].AtTail?
    ensures k < |steps| && steps[k] == Finish(i, Run(steps).phases[i].outcome)
  {
    var n := |steps| - 1;
    var before := Run(steps[..n]);
    if i < |before.phases| && before.phases[i] == Run(steps).phases[i] {
      k := TailNeedsFinish(steps[..n], i);
    } else {
      k := n;
    }
  }

  // ---- The steps on the real queue ----

  function AcksOf(log: seq<Entry>): (acks: seq<Ack>)
    ensures |acks| == |log|
  {
    seq(|log|, i requires 0 <= i < |log| => log[i].ack)
  }

  /** The queue holds what the state says: the same pending list, and the same batches handed out. */
  ghost predicate Mirrors(q: AckQueue, s: State)
    reads q, q.buf, q.batches
  {
    && q.Valid() && q.added == AcksOf(s.log) && q.buf[..q.len] == AcksOf(s.pending)
    && |q.batches| == |s.batches|
    && forall i | 0 <= i < |q.batches| :: q.batches[i][..] == AcksOf(s.batches[i])
  }

  /** A step adds at most one ack, to the log and the pending list alike, or drains. */
  lemma StepOnQueue(s: State, step: Step)
    requires |s.cmds| == |s.phases|
    ensures var t := Apply(s, step);
            if step.Drain? then t.log == s.log && t.batches == s.batches + [s.pending] && t.pending == []
            else
              && t.batches == s.batches
              && (|t.log| == |s.log| ==> t.log == s.log && t.pending == s.pending)
              && (|t.log| != |s.log| ==>
                    && |t.log| == |s.log| + 1 && t.log == s.log + [t.log[|s.log|]]
                    && t.pending == s.pending + [t.log[|s.log|]])
  {
  }

  method NewQueue() returns (q: AckQueue)
    ensures Mirrors(q, INIT) && fresh(q) && fresh(q.buf)
  {
    q := new AckQueue();
  }

  /** One step, on the queue. */
  method Perform(q: AckQueue, s: State, step: Step) returns (t: State)
    requires |s.cmds| == |s.phases| && Mirrors(q, s)
    modifies q, q.buf
    ensures t == Apply(s, step) && Mirrors(q, t) && (q.buf == old(q.buf) || fresh(q.buf))
  {
    t := Apply(s, step);
    StepOnQueue(s, step);
    hide Apply;
    if step.Drain? {
      var acks := q.GetAndClearAcks();
    } else if |t.log| != |s.log| {
      q.AddAck(t.log[|s.log|].ack);
    }
  }

  lemma MirrorsValid(q: AckQueue, s: State)
    requires Mirrors(q, s)
    ensures Contents(q.batches) + q.buf[..q.len] == AcksOf(s.log)
  {
  }

  /** Any interleaving of the dispatcher's steps, on the queue with its reused array: every batch
      handed out still reads as it did when it was drained, and all batches followed by the
      pending list are the acks of the commands, in order. */
  method Replay(steps: seq<Step>) returns (q: AckQueue)
    ensures Mirrors(q, Run(steps))
    ensures Contents(q.batches) + q.buf[..q.len] == AcksOf(Run(steps).log)
  {
    hide Apply, Mirrors;
    q := NewQueue();
    var s := INIT;
    for i := 0 to |steps|
      invariant s == Run(steps[..i]) && fresh(q) && fresh(q.buf)
      invariant Mirrors(q, s)
    {
      assert steps[..i + 1][..i] == steps[..i];
      s := Perform(q, s, steps[i]);
    }
    assert steps[..|steps|] == steps;
    MirrorsValid(q, s);
  }
}
