/**
 The privacy gate: a stored password record, the unlock sessions a verified password opens,
 and the three admission gates that command dispatch puts in front of privacy-blocked
 commands. Times are nanoseconds. Password hashing is an arbitrary function, and random
 salts and tokens arrive with the operation that draws them.
 */
module PrivacyGate {
  const MINUTE: int := 60_000_000_000
  const UNLOCK_TTL: int := 15 * MINUTE
  const UNLOCK_MAX: int := 120 * MINUTE

  type Kdf = (string, string) -> string

  /** What readPrivacyGateBlob finds: nothing, bytes that are no record, or a record. */
  datatype Blob = Absent | Corrupt | Record(salt: string, hash: string)

  datatype Session = Session(feature: string, created: int, lastUsed: int)

  datatype Gate = Gate(mode: bool, blob: Blob, unlocks: map<string, Session>)

  /** executeCommand, ExecuteSync and dispatchHubCommand each have a gate of their own. */
  datatype GateKind = Async | Sync | Hub

  datatype Op =
    | SetPassword(password: string, salt: string, ioError: bool)
    | ChangePassword(oldPassword: string, newPassword: string, salt: string, ioError: bool)
    | RemovePassword(password: string, ioError: bool)
    | VerifyPassword(password: string, feature: string, token: string)
    | CheckToken(token: string, feature: string)
    | Admit(kind: GateKind, cmdType: CommandType, token: string, bypass: bool)
    | Purge
    | SetMode(on: bool)

  datatype Timed = At(now: int, op: Op)

  datatype Answer = Done | Refused | Unlocked(token: string) | Allowed(yes: bool)

  // ---- Command types ----

  /** The command types the gates single out; every other type string is an Other. */
  datatype CommandType =
    | OpenRemoteTunnel | SshJumpGrant | RunScript | ListWtsSessions | ListProcesses | KillProcess
    | ListDirectory | CreateDirectory | RenameFile | DeleteFile | DownloadFile | UploadFile
    | Other(name: string)

  /** isBlockedByPrivacy */
  predicate Blocked(t: CommandType) {
    match t
    case OpenRemoteTunnel | SshJumpGrant | RunScript | ListWtsSessions | ListProcesses | KillProcess => true
    case ListDirectory | CreateDirectory | RenameFile | DeleteFile | DownloadFile | UploadFile => true
    case Other(_) => false
  }

  /** privacyFeatureForCommand */
  function Feature(t: CommandType): string {
    match t
    case RunScript => "scripts"
    case OpenRemoteTunnel | SshJumpGrant => "remote"
    case ListWtsSessions | ListProcesses | KillProcess => "processes"
    case ListDirectory | CreateDirectory | RenameFile | DeleteFile | DownloadFile | UploadFile => "files"
    case Other(_) => ""
  }

  /** Exactly the blocked types have a feature, so the scope of a token is never skipped. */
  lemma BlockedTypesAreScoped(t: CommandType)
    ensures Blocked(t) <==> Feature(t) != ""
  {
  }

  // ---- One operation ----

  predicate IsSet(b: Blob) {
    b.Record? && b.hash != "" && b.salt != ""
  }

  predicate Matches(kdf: Kdf, b: Blob, password: string) {
    b.Record? && kdf(password, b.salt) == b.hash
  }

  predicate Expired(s: Session, now: int) {
    now - s.created > UNLOCK_MAX || now - s.lastUsed > UNLOCK_TTL
  }

  predicate InScope(s: Session, feature: string) {
    feature == "" || s.feature == feature || s.feature == ""
  }

  /** CheckUnlockToken: the answer, and the sessions it leaves. */
  function Checked(unlocks: map<string, Session>, token: string, feature: string, now: int)
    : (map<string, Session>, bool)
  {
    if token == "" || token !in unlocks then (unlocks, false)
    else if Expired(unlocks[token], now) then (unlocks - {token}, false)
    else if !InScope(unlocks[token], feature) then (unlocks, false)
    else (unlocks[token := unlocks[token].(lastUsed := now)], true)
  }

  function Live(unlocks: map<string, Session>, now: int): map<string, Session> {
    map k | k in unlocks && !Expired(unlocks[k], now) :: unlocks[k]
  }

  /** Whether a gate looks at the unlock token at all. The hub gate ignores the bypass flag. */
  predicate Consults(g: Gate, op: Op)
    requires op.Admit?
  {
    g.mode && Blocked(op.cmdType) && (op.kind == Hub || !op.bypass)
  }

  /** A whole operation that nothing interrupts. */
  function Step(kdf: Kdf, g: Gate, e: Timed): (Gate, Answer) {
    match e.op
    case SetPassword(password, salt, ioError) =>
      if g.mode || IsSet(g.blob) || password == "" || ioError then (g, Refused)
      else (g.(blob := Record(salt, kdf(password, salt))), Done)
    case ChangePassword(oldPassword, newPassword, salt, ioError) =>
      if g.mode || !IsSet(g.blob) || !Matches(kdf, g.blob, oldPassword) then (g, Refused)
      else if newPassword == "" || ioError then (g, Refused)
      else (g.(blob := Record(salt, kdf(newPassword, salt))), Done)
    case RemovePassword(password, ioError) =>
      if g.mode then (g, Refused)
      else if !IsSet(g.blob) then (g, Done)
      else if !Matches(kdf, g.blob, password) then (g, Refused)
      else if ioError then (g.(unlocks := map[]), Refused)
      else (g.(unlocks := map[], blob := Absent), Done)
    case VerifyPassword(password, feature, token) =>
      if !IsSet(g.blob) || !Matches(kdf, g.blob, password) then (g, Refused)
      else (g.(unlocks := g.unlocks[token := Session(feature, e.now, e.now)]), Unlocked(token))
    case CheckToken(token, feature) =>
      var (u, ok) := Checked(g.unlocks, token, feature, e.now);
      (g.(unlocks := u), Allowed(ok))
    case Admit(_, cmdType, token, _) =>
      if !Consults(g, e.op) then (g, Allowed(true))
      else
        var (u, ok) := Checked(g.unlocks, token, Feature(cmdType), e.now);
        (g.(unlocks := u), Allowed(ok))
    case Purge => (g.(unlocks := Live(g.unlocks, e.now)), Done)
    case SetMode(on) => (g.(mode := on), Done)
  }

  // ---- The code itself ----

  class Store {
    const kdf: Kdf
    var mode: bool
    var blob: Blob
    var unlocks: map<string, Session>

    ghost function Now(): Gate reads this {
      Gate(mode, blob, unlocks)
    }

    constructor (kdf: Kdf, mode: bool, blob: Blob)
      ensures this.kdf == kdf && Now() == Gate(mode, blob, map[])
    {
      this.kdf, this.mode, this.blob, unlocks := kdf, mode, blob, map[];
    }

    method Set(password: string, salt: string, ioError: bool) returns (a: Answer)
      modifies this
      ensures (Now(), a) == Step(kdf, old(Now()), At(0, SetPassword(password, salt, ioError)))
      ensures var r := old(blob);
              var stored := r.Record? && r.salt != "" && r.hash != "";
              a == Done <==> !old(mode) && !stored && password != "" && !ioError
      ensures blob == if a == Done then Record(salt, kdf(password, salt)) else old(blob)
    {
      if mode || IsSet(blob) || password == "" || ioError {
        return Refused;
      }
      blob := Record(salt, kdf(password, salt));
      return Done;
    }

    method Change(oldPassword: string, newPassword: string, salt: string, ioError: bool) returns (a: Answer)
      modifies this
      ensures (Now(), a) == Step(kdf, old(Now()), At(0, ChangePassword(oldPassword, newPassword, salt, ioError)))
      ensures var r := old(blob);
              a == Done <==>
                && !old(mode) && r.Record? && r.salt != "" && r.hash != "" && kdf(oldPassword, r.salt) == r.hash
                && newPassword != "" && !ioError
      ensures blob == if a == Done then Record(salt, kdf(newPassword, salt)) else old(blob)
    {
      if mode || !IsSet(blob) {
        return Refused;
      }
      if !Matches(kdf, blob, oldPassword) || newPassword == "" || ioError {
        return Refused;
      }
      blob := Record(salt, kdf(newPassword, salt));
      return Done;
    }

    method Remove(password: string, ioError: bool) returns (a: Answer)
      modifies this
      ensures (Now(), a) == Step(kdf, old(Now()), At(0, RemovePassword(password, ioError)))
      ensures var r := old(blob);
              var stored := r.Record? && r.salt != "" && r.hash != "";
              && (a == Done <==> !old(mode) && (!stored || (kdf(password, r.salt) == r.hash && !ioError)))
              && (blob != r || unlocks != old(unlocks) ==> !old(mode) && stored && kdf(password, r.salt) == r.hash)
    {
      if mode {
        return Refused;
      }
      if !IsSet(blob) {
        return Done;
      }
      if !Matches(kdf, blob, password) {
        return Refused;
      }
      unlocks := map[];
      if ioError {
        return Refused;
      }
      blob := Absent;
      return Done;
    }

    method Verify(password: string, feature: string, token: string, now: int) returns (a: Answer)
      modifies this
      ensures (Now(), a) == Step(kdf, old(Now()), At(now, VerifyPassword(password, feature, token)))
      ensures var r := old(blob);
              && (a == Unlocked(token) <==>
                    r.Record? && r.salt != "" && r.hash != "" && kdf(password, r.salt) == r.hash)
              && (a != Unlocked(token) ==> a == Refused && Now() == old(Now()))
    {
      if !IsSet(blob) || !Matches(kdf, blob, password) {
        return Refused;
      }
      unlocks := unlocks[token := Session(feature, now, now)];
      return Unlocked(token);
    }

    method CheckUnlockToken(token: string, feature: string, now: int) returns (ok: bool)
      modifies this
      ensures mode == old(mode) && blob == old(blob)
      ensures (unlocks, ok) == Checked(old(unlocks), token, feature, now)
      ensures ok <==>
                && token != "" && token in old(unlocks)
                && var s := old(unlocks)[token];
                   && now - s.created <= 2 * 3600 * 1_000_000_000 && now - s.lastUsed <= 15 * 60 * 1_000_000_000
                   && (feature == "" || s.feature == "" || s.feature == feature)
    {
      if token == "" || token !in unlocks {
        return false;
      }
      var s := unlocks[token];
      if now - s.created > UNLOCK_MAX {
        unlocks := unlocks - {token};
        return false;
      }
      if now - s.lastUsed > UNLOCK_TTL {
        unlocks := unlocks - {token};
        return false;
      }
      if feature != "" && s.feature != feature && s.feature != "" {
        return false;
      }
      unlocks := unlocks[token := s.(lastUsed := now)];
      return true;
    }

    /** The gate in front of a command's handler. */
    method AdmitCommand(kind: GateKind, cmdType: CommandType, token: string, bypass: bool, now: int) returns (ok: bool)
      modifies this
      ensures (Now(), Allowed(ok)) == Step(kdf, old(Now()), At(now, Admit(kind, cmdType, token, bypass)))
      ensures mode == old(mode) && blob == old(blob)
      ensures var free := !old(mode) || !Blocked(cmdType) || (bypass && kind != Hub);
              && (free ==> ok && unlocks == old(unlocks))
              && (!free ==> (unlocks, ok) == Checked(old(unlocks), token, Feature(cmdType), now))
    {
      ok := true;
      if mode && Blocked(cmdType) && (kind == Hub || !bypass) {
        ok := CheckUnlockToken(token, Feature(cmdType), now);
      }
    }

    method PurgeExpiredUnlocks(now: int)
      modifies this
      ensures Now() == Step(kdf, old(Now()), At(now, Purge)).0
      ensures forall k :: k in unlocks <==>
                            && k in old(unlocks)
                            && now - old(unlocks)[k].created <= 2 * 3600 * 1_000_000_000
                            && now - old(unlocks)[k].lastUsed <= 15 * 60 * 1_000_000_000
      ensures forall k | k in unlocks :: unlocks[k] == old(unlocks)[k]
    {
      var todo := unlocks.Keys;
      while todo != {}
        invariant todo <= unlocks.Keys <= old(unlocks).Keys
        invariant mode == old(mode) && blob == old(blob)
        invariant forall k | k in unlocks :: unlocks[k] == old(unlocks)[k]
        invariant forall k | k in old(unlocks) && k !in todo ::
                    k in unlocks <==> !Expired(old(unlocks)[k], now)
        decreases todo
      {
        var k :| k in todo;
        todo := todo - {k};
        if Expired(unlocks[k], now) {
          unlocks := unlocks - {k};
        }
      }
    }
  }
}
