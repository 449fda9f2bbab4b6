/**
 Commands and the privacy gate in one run: the dispatcher's goroutines, each with a gate of its own
 in front of its handler, interleaved with every other privacy operation.
 */
module CommandRuns {
  import opened PrivacyGate
  import PrivacyRuns
  import Dispatcher

  /** The command types the gates single out, by their names on the wire. */
  function TypeOf(name: string): CommandType {
    match name
    case "open_remote_tunnel" => OpenRemoteTunnel
    case "ssh_jump_grant" => SshJumpGrant
    case "run_script" => RunScript
    case "list_wts_sessions" => ListWtsSessions
    case "list_processes" => ListProcesses
    case "kill_process" => KillProcess
    case "list_directory" => ListDirectory
    case "create_directory" => CreateDirectory
    case "rename_file" => RenameFile
    case "delete_file" => DeleteFile
    case "download_file" => DownloadFile
    case "upload_file" => UploadFile
    case _ => Other(name)
  }

  /** The blocked commands and the feature a token has to be opened for, name by name. */
  lemma FeatureOfName(name: string)
    ensures Blocked(TypeOf(name)) <==>
              name in ["open_remote_tunnel", "ssh_jump_grant", "run_script", "list_wts_sessions", "list_processes",
                       "kill_process", "list_directory", "create_directory", "rename_file", "delete_file",
                       "download_file", "upload_file"]
    ensures Feature(TypeOf(name)) == "scripts" <==> name == "run_script"
    ensures Feature(TypeOf(name)) == "remote" <==> name in ["open_remote_tunnel", "ssh_jump_grant"]
    ensures Feature(TypeOf(name)) == "processes" <==> name in ["list_wts_sessions", "list_processes", "kill_process"]
    ensures Feature(TypeOf(name)) == "files" <==>
              name in ["list_directory", "create_directory", "rename_file", "delete_file", "download_file",
                       "upload_file"]
  {
    FeaturesDiffer();
    hide Feature, Blocked;
    FeatureTable(TypeOf(name));
  }

  lemma FeaturesDiffer()
    ensures "scripts" != "remote" && "scripts" != "processes" && "scripts" != "files" && "scripts" != ""
    ensures "remote" != "processes" && "remote" != "files" && "remote" != ""
    ensures "processes" != "files" && "processes" != "" && "files" != ""
  {
  }

  lemma FeatureTable(t: CommandType)
    ensures Blocked(t) <==> !t.Other?
    ensures Feature(t) == if t.Other? then ""
                          else if t.RunScript? then "scripts"
                          else if t.OpenRemoteTunnel? || t.SshJumpGrant? then "remote"
                          else if t.ListWtsSessions? || t.ListProcesses? || t.KillProcess? then "processes"
                          else "files"
  {
  }

  /** A command arrives, with the token and the bypass flag of its payload; a privacy operation or a
      gate takes a step; or a command's goroutine does. */
  datatype Event =
    | Arrives(now: int, cmd: Dispatcher.Command, token: string, bypass: bool)
    | Privacy(e: PrivacyRuns.Event)
    | Moves(step: Dispatcher.Step)

  datatype State = State(d: Dispatcher.State, h: PrivacyRuns.History)

  /** The gate of command i among the privacy operations, which otherwise have even numbers. */
  function GateId(i: nat): nat {
    2 * i + 1
  }

  function Extend(h: PrivacyRuns.History, e: PrivacyRuns.Event): PrivacyRuns.History {
    h.(es := h.es + [e])
  }

  predicate GateSays(s: State, i: nat, yes: bool) {
    var tasks := PrivacyRuns.Final(s.h).tasks;
    GateId(i) in tasks && tasks[GateId(i)].phase == PrivacyRuns.Finished(Allowed(yes))
  }

  /** A goroutine passes its gate, or is turned away, only as the gate says. */
  predicate Enabled(s: State, step: Dispatcher.Step) {
    match step
    case Receive(_) => false
    case Admit(i) => GateSays(s, i, true)
    case Refuse(i) => GateSays(s, i, false)
    case _ => true
  }

  function Next(s: State, e: Event): (t: State)
    requires |s.d.cmds| == |s.d.phases|
    ensures |t.d.cmds| == |t.d.phases|
  {
    match e
    case Arrives(now, cmd, token, bypass) =>
      var gate := Op.Admit(Async, TypeOf(cmd.cmdType), token, bypass);
      State(Dispatcher.Apply(s.d, Dispatcher.Receive(cmd)),
            Extend(s.h, PrivacyRuns.Event(now, PrivacyRuns.Begin(GateId(|s.d.cmds|), gate))))
    case Privacy(p) =>
      if p.move.Begin? && p.move.id % 2 == 1 then s else s.(h := Extend(s.h, p))
    case Moves(step) =>
      if Enabled(s, step) then s.(d := Dispatcher.Apply(s.d, step)) else s
  }

  function Start(kdf: Kdf, mode: bool, blob: Blob): State {
    State(Dispatcher.INIT, PrivacyRuns.History(kdf, mode, blob, []))
  }

  function Run(s: State, es: seq<Event>): (t: State)
    requires |s.d.cmds| == |s.d.phases|
    ensures |t.d.cmds| == |t.d.phases|
  {
    if es == [] then s else Next(Run(s, es[..|es| - 1]), es[|es| - 1])
  }

  predicate Handling(p: Dispatcher.Phase) {
    p.InHandler? || p.AtTail?
  }

  /** Every command has its gate, and is in its handler only once the gate has let it through. */
  predicate Gated(s: State) {
    var tasks := PrivacyRuns.Final(s.h).tasks;
    && |s.d.cmds| == |s.d.phases|
    && (forall i | 0 <= i < |s.d.cmds| ::
          && GateId(i) in tasks && tasks[GateId(i)].op.Admit? && tasks[GateId(i)].op.kind == Async
          && tasks[GateId(i)].op.cmdType == TypeOf(s.d.cmds[i].cmdType))
    && (forall i | 0 <= i < |s.d.phases| :: Handling(s.d.phases[i]) ==> GateSays(s, i, true))
    && (forall id | id in tasks && id % 2 == 1 :: id < GateId(|s.d.cmds|))
  }

  lemma FinalExtend(h: PrivacyRuns.History, e: PrivacyRuns.Event)
    ensures PrivacyRuns.Final(Extend(h, e)) == PrivacyRuns.Next(h.kdf, PrivacyRuns.Final(h), e)
  {
    var longer := Extend(h, e);
    assert PrivacyRuns.Front(longer) == h;
    PrivacyRuns.FinalStep(longer);
  }

  /** A privacy event keeps every task, its operation, and its answer once it has one; it adds no
      task but the one it begins. */
  lemma TasksStay(kdf: Kdf, w: PrivacyRuns.World, e: PrivacyRuns.Event, id: nat)
    ensures var t := PrivacyRuns.Next(kdf, w, e).tasks;
            && (id in w.tasks ==>
                  id in t && t[id].op == w.tasks[id].op && (w.tasks[id].phase.Finished? ==> t[id] == w.tasks[id]))
            && (id in t && id !in w.tasks ==>
                  e.move.Begin? && e.move.id == id && t[id] == PrivacyRuns.Task(e.move.op, PrivacyRuns.Begun))
            && (e.move.Begin? && e.move.id == id && PrivacyRuns.IsTask(e.move.op) ==> id in t)
  {
    if id in w.tasks {
      PrivacyRuns.AdvanceKeepsOp(kdf, w.gate, w.tasks[id], e.now);
    }
  }

  lemma PrivacyKeepsGated(s: State, p: PrivacyRuns.Event)
    requires Gated(s) && !(p.move.Begin? && p.move.id % 2 == 1)
    ensures Gated(s.(h := Extend(s.h, p)))
  {
    FinalExtend(s.h, p);
    var w, t := PrivacyRuns.Final(s.h), s.(h := Extend(s.h, p));
    forall id: nat
      ensures id in w.tasks ==> id in PrivacyRuns.Final(t.h).tasks
    {
      TasksStay(s.h.kdf, w, p, id);
    }
    forall i | 0 <= i < |s.d.cmds|
      ensures GateId(i) in PrivacyRuns.Final(t.h).tasks
      ensures PrivacyRuns.Final(t.h).tasks[GateId(i)].op == w.tasks[GateId(i)].op
      ensures GateSays(s, i, true) ==> GateSays(t, i, true)
    {
      TasksStay(s.h.kdf, w, p, GateId(i));
    }
    forall id | id in PrivacyRuns.Final(t.h).tasks && id % 2 == 1
      ensures id < GateId(|s.d.cmds|)
    {
      TasksStay(s.h.kdf, w, p, id);
    }
    hide PrivacyRuns.Final, PrivacyRuns.Next;
  }

  lemma ArrivalKeepsGated(s: State, e: Event)
    requires Gated(s) && e.Arrives?
    ensures Gated(Next(s, e))
  {
    var n := |s.d.cmds|;
    var t := Next(s, e);
    var p := t.h.es[|s.h.es|];
    FinalExtend(s.h, p);
    var w := PrivacyRuns.Final(s.h);
    assert GateId(n) % 2 == 1 && GateId(n) !in w.tasks;
    forall i | 0 <= i <= n
      ensures GateId(i) in PrivacyRuns.Final(t.h).tasks
      ensures i < n ==> PrivacyRuns.Final(t.h).tasks[GateId(i)].op == w.tasks[GateId(i)].op
      ensures i < n && GateSays(s, i, true) ==> GateSays(t, i, true)
      ensures i == n ==> PrivacyRuns.Final(t.h).tasks[GateId(i)].op == p.move.op
    {
      TasksStay(s.h.kdf, w, p, GateId(i));
    }
    forall id | id in PrivacyRuns.Final(t.h).tasks && id % 2 == 1
      ensures id < GateId(n + 1)
    {
      TasksStay(s.h.kdf, w, p, id);
    }
    hide PrivacyRuns.Final, PrivacyRuns.Next;
  }

  /** The phases a step leads to are handler phases only from a handler phase, or by an admission. */
  lemma PhaseStep(d: Dispatcher.State, step: Dispatcher.Step, i: nat)
    requires |d.cmds| == |d.phases| && !step.Receive? && i < |d.phases|
    ensures var t := Dispatcher.Apply(d, step);
            && t.cmds == d.cmds && |t.phases| == |d.phases|
            && (Handling(t.phases[i]) && !Handling(d.phases[i]) ==> step == Dispatcher.Admit(i))
  {
  }

  lemma MoveKeepsGated(s: State, step: Dispatcher.Step)
    requires Gated(s) && Enabled(s, step)
    ensures Gated(s.(d := Dispatcher.Apply(s.d, step)))
  {
    var t := s.(d := Dispatcher.Apply(s.d, step));
    forall i | 0 <= i < |s.d.phases|
      ensures t.d.cmds == s.d.cmds && |t.d.phases| == |s.d.phases|
      ensures Handling(t.d.phases[i]) ==> GateSays(t, i, true)
    {
      PhaseStep(s.d, step, i);
    }
    NoCommandsNoPhases(s.d, step);
    hide Dispatcher.Apply, PrivacyRuns.Final;
  }

  lemma NoCommandsNoPhases(d: Dispatcher.State, step: Dispatcher.Step)
    requires |d.cmds| == |d.phases| && !step.Receive?
    ensures Dispatcher.Apply(d, step).cmds == d.cmds && |Dispatcher.Apply(d, step).phases| == |d.phases|
  {
  }

  lemma {:induction false} EveryRunIsGated(kdf: Kdf, mode: bool, blob: Blob, es: seq<Event>)
    ensures Gated(Run(Start(kdf, mode, blob), es))
  {
    if es != [] {
      var s, e := Run(Start(kdf, mode, blob), es[..|es| - 1]), es[|es| - 1];
      EveryRunIsGated(kdf, mode, blob, es[..|es| - 1]);
      hide Gated;
      match e
      case Arrives(_, _, _, _) => ArrivalKeepsGated(s, e);
      case Privacy(p) =>
        if !(p.move.Begin? && p.move.id % 2 == 1) {
          PrivacyKeepsGated(s, p);
        }
      case Moves(step) =>
        if Enabled(s, step) {
          MoveKeepsGated(s, step);
        }
    }
  }

  /** In every run, a privacy-blocked command whose goroutine is in its handler, or has come from it,
      passed a gate that read the mode as off, or honoured its bypass flag, or looked its token up
      at the end of a chain of accepted uses begun by a password check for its feature or for
      all. */
  lemma HandledCommandsWereAdmitted(kdf: Kdf, mode: bool, blob: Blob, es: seq<Event>, s: State, i: nat)
    returns (m: nat, chain: seq<nat>)
    requires s == Run(Start(kdf, mode, blob), es) && i < |s.d.phases| && Handling(s.d.phases[i])
    requires Blocked(TypeOf(s.d.cmds[i].cmdType))
    ensures m < |s.h.es| && s.h.es[m].move == PrivacyRuns.Go(GateId(i))
    ensures var op := PrivacyRuns.Actor(s.h, m).op;
            && op.Admit? && op.kind == Async && op.cmdType == TypeOf(s.d.cmds[i].cmdType)
            && if PrivacyRuns.Actor(s.h, m).phase.Begun? then !PrivacyRuns.GateAt(s.h, m).mode || op.bypass
               else
                 && PrivacyRuns.IsChain(s.h, m + 1, op.token, chain) && chain[|chain| - 1] == m
                 && PrivacyRuns.Actor(s.h, chain[0]).op.VerifyPassword?
                 && PrivacyRuns.Actor(s.h, chain[0]).op.feature in {Feature(op.cmdType), ""}
  {
    EveryRunIsGated(kdf, mode, blob, es);
    assert GateSays(s, i, true);
    m, chain := PrivacyRuns.BlockedCommandNeedsUnlock(s.h, |s.h.es|, GateId(i));
  }
}
