/**
 Airgap mode on Linux: an iptables chain that lets only loopback, established, DNS and server
 traffic through, built command by command with rollback, torn down by deleting every jump to
 it, and the mode switch that keeps the firewall, the state file and the flag together.
 */
module Airgap {
  import opened Text
  import opened Filters

  datatype ChainName = Input | Output | AirgapChain | User(name: string)

  datatype Match = Any | OutLoopback | InLoopback | Established | UdpDns | Dst(ip: string) | Src(ip: string)
                 | OtherMatch(id: int)

  datatype Target = Accept | Drop | Return | Jump(chain: ChainName)

  datatype Rule = Rule(when: Match, target: Target)

  type Chains = map<ChainName, seq<Rule>>

  const JUMP := Rule(Any, Jump(AirgapChain))

  // ---- What a rule set does to a packet ----

  datatype Packet = Packet(outLoopback: bool, inLoopback: bool, established: bool, udp: bool, dport: int,
                           src: int, dst: int, rest: int)

  /** How addresses written in rules cover packet addresses, and what the other matches mean. */
  datatype Env = Env(covers: (string, int) -> bool, other: (int, Packet) -> bool)

  predicate Matches(env: Env, m: Match, p: Packet) {
    match m
    case Any => true
    case OutLoopback => p.outLoopback
    case InLoopback => p.inLoopback
    case Established => p.established
    case UdpDns => p.udp && p.dport == 53
    case Dst(ip) => env.covers(ip, p.dst)
    case Src(ip) => env.covers(ip, p.src)
    case OtherMatch(id) => env.other(id, p)
  }

  datatype Verdict = Accepted | Dropped | FellThrough

  /** First-match evaluation; `depth` bounds how deeply chains may jump into one another. */
  function Walk(env: Env, chains: Chains, rules: seq<Rule>, p: Packet, depth: nat): Verdict
    decreases depth, |rules|
  {
    if rules == [] then FellThrough
    else if !Matches(env, rules[0].when, p) then Walk(env, chains, rules[1..], p, depth)
    else match rules[0].target
      case Accept => Accepted
      case Drop => Dropped
      case Return => FellThrough
      case Jump(c) =>
        var v := if depth == 0 || c !in chains then FellThrough else Walk(env, chains, chains[c], p, depth - 1);
        if v.FellThrough? then Walk(env, chains, rules[1..], p, depth) else v
  }

  // ---- The rules of the airgap chain ----

  const BASE_MATCHES := [OutLoopback, InLoopback, Established, UdpDns]

  function ServerMatches(ips: seq<string>): seq<Match> {
    if ips == [] then []
    else ServerMatches(ips[..|ips| - 1]) + [Dst(ips[|ips| - 1]), Src(ips[|ips| - 1])]
  }

  function Accepts(ms: seq<Match>): (rules: seq<Rule>)
    ensures |rules| == |ms|
    ensures forall i | 0 <= i < |ms| :: rules[i] == Rule(ms[i], Accept)
  {
    seq(|ms|, i requires 0 <= i < |ms| => Rule(ms[i], Accept))
  }

  function AirgapRules(ips: seq<string>): seq<Rule> {
    Accepts(BASE_MATCHES + ServerMatches(ips)) + [Rule(Any, Drop)]
  }

  /** A rule set with the airgap in force on top of it. */
  function InForce(chains: Chains, ips: seq<string>): Chains
    requires Input in chains && Output in chains
  {
    chains[AirgapChain := AirgapRules(ips)][Output := [JUMP] + chains[Output]][Input := [JUMP] + chains[Input]]
  }

  predicate Allowed(env: Env, ips: seq<string>, p: Packet) {
    || p.outLoopback || p.inLoopback || p.established || (p.udp && p.dport == 53)
    || exists ip | ip in ips :: env.covers(ip, p.dst) || env.covers(ip, p.src)
  }

  predicate AnyMatches(env: Env, ms: seq<Match>, p: Packet) {
    exists m | m in ms :: Matches(env, m, p)
  }

  lemma {:induction false} WalkAccepts(env: Env, chains: Chains, ms: seq<Match>, tail: seq<Rule>, p: Packet, depth: nat)
    ensures Walk(env, chains, Accepts(ms) + tail, p, depth) ==
            if AnyMatches(env, ms, p) then Accepted else Walk(env, chains, tail, p, depth)
    decreases |ms|
  {
    if ms == [] {
      assert Accepts(ms) + tail == tail;
    } else {
      var rules := Accepts(ms) + tail;
      WalkAccepts(env, chains, ms[1..], tail, p, depth);
      assert rules[1..] == Accepts(ms[1..]) + tail;
      assert ms == [ms[0]] + ms[1..];
      assert AnyMatches(env, ms, p) <==> Matches(env, ms[0], p) || AnyMatches(env, ms[1..], p);
    }
  }

  lemma {:induction false} ServerMembers(ips: seq<string>, m: Match)
    ensures m in ServerMatches(ips) <==> (m.Dst? || m.Src?) && m.ip in ips
  {
    if ips != [] {
      ServerMembers(ips[..|ips| - 1], m);
      assert ips == ips[..|ips| - 1] + [ips[|ips| - 1]];
    }
  }

  lemma AllowedMatches(env: Env, ips: seq<string>, p: Packet)
    ensures AnyMatches(env, BASE_MATCHES + ServerMatches(ips), p) <==> Allowed(env, ips, p)
  {
    var ms := BASE_MATCHES + ServerMatches(ips);
    forall m
      ensures m in ms <==> m in BASE_MATCHES || ((m.Dst? || m.Src?) && m.ip in ips)
    {
      ServerMembers(ips, m);
    }
    assert BASE_MATCHES[0] in ms && BASE_MATCHES[1] in ms && BASE_MATCHES[2] in ms && BASE_MATCHES[3] in ms;
    forall ip | ip in ips
      ensures Dst(ip) in ms && Src(ip) in ms
    {
    }
  }

  lemma WalkAirgapChain(env: Env, chains: Chains, ips: seq<string>, p: Packet, depth: nat)
    ensures Walk(env, chains, AirgapRules(ips), p, depth) == if Allowed(env, ips, p) then Accepted else Dropped
  {
    WalkAccepts(env, chains, BASE_MATCHES + ServerMatches(ips), [Rule(Any, Drop)], p, depth);
    AllowedMatches(env, ips, p);
  }

  /** With the airgap in force, whatever rules lie beneath, both hooks accept exactly loopback,
      established, UDP port 53 and server traffic, and drop everything else. */
  lemma AirgapVerdict(env: Env, under: Chains, ips: seq<string>, hook: ChainName, p: Packet, depth: nat)
    requires Input in under && Output in under && (hook == Input || hook == Output) && depth >= 1
    ensures var chains := InForce(under, ips);
            Walk(env, chains, chains[hook], p, depth) == if Allowed(env, ips, p) then Accepted else Dropped
  {
    WalkAirgapChain(env, InForce(under, ips), ips, p, depth - 1);
  }

  // ---- References to the chain ----

  function NotJump(): Rule -> bool {
    (r: Rule) => r != JUMP
  }

  function WithoutJumps(rules: seq<Rule>): seq<Rule> {
    Filter(NotJump(), rules)
  }

  /** The rule set without the airgap chain and without the agent's jumps to it. */
  function Strip(chains: Chains): Chains {
    map c | c in chains && c != AirgapChain ::
      if c == Input || c == Output then WithoutJumps(chains[c]) else chains[c]
  }

  predicate Refers(rules: seq<Rule>) {
    exists i | 0 <= i < |rules| :: rules[i].target == Jump(AirgapChain)
  }

  predicate Referenced(chains: Chains) {
    exists c | c in chains :: Refers(chains[c])
  }

  /** Nothing of the airgap is there. */
  predicate Off(chains: Chains) {
    Strip(chains) == chains
  }

  /** Some rule that is not the agent's own jump refers to the airgap chain. */
  predicate ForeignReference(chains: Chains) {
    Referenced(Strip(chains))
  }

  /** What iptables keeps: the built-in chains exist, and a jump's target exists. */
  predicate WellFormed(chains: Chains) {
    Input in chains && Output in chains && (Referenced(chains) ==> AirgapChain in chains)
  }

  function Jumps(rules: seq<Rule>): (n: nat)
    ensures n > 0 <==> JUMP in rules
  {
    if rules == [] then 0 else (if rules[0] == JUMP then 1 else 0) + Jumps(rules[1..])
  }

  /** iptables -D with a rule specification: the first such rule goes. */
  function DeleteFirst(rules: seq<Rule>): seq<Rule> {
    if rules == [] then [] else if rules[0] == JUMP then rules[1..] else [rules[0]] + DeleteFirst(rules[1..])
  }

  lemma {:induction false} FilterFront(rules: seq<Rule>)
    requires rules != []
    ensures WithoutJumps(rules) == (if rules[0] == JUMP then [] else [rules[0]]) + WithoutJumps(rules[1..])
  {
    if |rules| > 1 {
      var n := |rules| - 1;
      FilterFront(rules[..n]);
      assert rules[..n][1..] == rules[1..][..n - 1];
    }
  }

  lemma {:induction false} DeleteFirstFacts(rules: seq<Rule>)
    ensures WithoutJumps(DeleteFirst(rules)) == WithoutJumps(rules)
    ensures JUMP in rules ==> Jumps(DeleteFirst(rules)) == Jumps(rules) - 1
  {
    if rules != [] {
      FilterFront(rules);
      if rules[0] != JUMP {
        var d := DeleteFirst(rules);
        DeleteFirstFacts(rules[1..]);
        FilterFront(d);
        assert d[1..] == DeleteFirst(rules[1..]);
      }
    }
  }

  lemma RefersFront(rules: seq<Rule>)
    requires rules != []
    ensures Refers(rules) <==> rules[0].target == Jump(AirgapChain) || Refers(rules[1..])
  {
    if Refers(rules[1..]) {
      var i :| 0 <= i < |rules[1..]| && rules[1..][i].target == Jump(AirgapChain);
      assert rules[i + 1].target == Jump(AirgapChain);
    }
    if Refers(rules) {
      var i :| 0 <= i < |rules| && rules[i].target == Jump(AirgapChain);
      if i > 0 {
        assert rules[1..][i - 1].target == Jump(AirgapChain);
      }
    }
  }

  lemma {:induction false} JumpFacts(rules: seq<Rule>)
    ensures Jumps(rules) == 0 <==> WithoutJumps(rules) == rules
    ensures |WithoutJumps(rules)| == |rules| - Jumps(rules)
    ensures Refers(rules) <==> Jumps(rules) > 0 || Refers(WithoutJumps(rules))
  {
    if rules != [] {
      FilterFront(rules);
      JumpFacts(rules[1..]);
      RefersFront(rules);
      if rules[0] != JUMP {
        var w := WithoutJumps(rules);
        assert w[1..] == WithoutJumps(rules[1..]);
        RefersFront(w);
      }
    }
  }

  lemma StripTwice(chains: Chains)
    ensures Strip(Strip(chains)) == Strip(chains)
  {
    forall c | c in chains
      ensures WithoutJumps(WithoutJumps(chains[c])) == WithoutJumps(chains[c])
    {
      FilterMembers(NotJump(), chains[c]);
      FilterAll(NotJump(), WithoutJumps(chains[c]));
    }
  }

  predicate NoJumps(chains: Chains)
    requires Input in chains && Output in chains
  {
    Jumps(chains[Input]) == 0 && Jumps(chains[Output]) == 0
  }

  lemma StripFixpoint(chains: Chains)
    requires Input in chains && Output in chains
    ensures Strip(chains) == chains <==> AirgapChain !in chains && NoJumps(chains)
  {
    JumpFacts(chains[Input]);
    JumpFacts(chains[Output]);
    if Strip(chains) == chains {
      assert Strip(chains)[Input] == chains[Input] && Strip(chains)[Output] == chains[Output];
    }
  }

  lemma ForeignIsReference(chains: Chains)
    requires Input in chains && Output in chains && ForeignReference(chains)
    ensures Referenced(chains)
  {
    JumpFacts(chains[Input]);
    JumpFacts(chains[Output]);
    var c :| c in Strip(chains) && Refers(Strip(chains)[c]);
    assert Refers(chains[c]);
  }

  /** Around an empty or missing chain, the references are the agent's jumps and the foreign ones. */
  lemma References(chains: Chains)
    requires Input in chains && Output in chains && (AirgapChain in chains ==> chains[AirgapChain] == [])
    ensures Referenced(chains) <==> ForeignReference(chains) || !NoJumps(chains)
  {
    JumpFacts(chains[Input]);
    JumpFacts(chains[Output]);
    if Referenced(chains) {
      var c :| c in chains && Refers(chains[c]);
      if NoJumps(chains) {
        assert c in Strip(chains) && Refers(Strip(chains)[c]);
      }
    }
    if ForeignReference(chains) {
      ForeignIsReference(chains);
    }
    if !NoJumps(chains) {
      assert Refers(chains[Input]) || Refers(chains[Output]);
    }
  }

  /** The airgap puts exactly one jump into each hook. */
  lemma OneJumpPerHook(chains: Chains, ips: seq<string>)
    requires Input in chains && Output in chains
    ensures var f := InForce(Strip(chains), ips); Jumps(f[Input]) == 1 && Jumps(f[Output]) == 1
  {
    var s := Strip(chains);
    StripTwice(chains);
    StripFixpoint(s);
    assert ([JUMP] + s[Input])[1..] == s[Input];
    assert ([JUMP] + s[Output])[1..] == s[Output];
  }

  // ---- The end of a removal ----

  /** iptables -F and -X on what the deletion of the jumps has left. */
  function Flushed(chains: Chains, stuck: bool): Chains {
    if !stuck && AirgapChain in chains then chains[AirgapChain := []] else chains
  }

  function Unchained(chains: Chains, stuck: bool): Chains {
    if !stuck && AirgapChain in chains && chains[AirgapChain] == [] && !Referenced(chains)
    then chains - {AirgapChain} else chains
  }

  /** `d` is `c` with some of the agent's jumps deleted. */
  predicate Trimmed(c: Chains, d: Chains) {
    && Input in c && Output in c && c.Keys == d.Keys
    && (forall k | k in c && k != Input && k != Output :: d[k] == c[k])
    && WithoutJumps(d[Input]) == WithoutJumps(c[Input]) && WithoutJumps(d[Output]) == WithoutJumps(c[Output])
    && Jumps(d[Input]) <= Jumps(c[Input]) && Jumps(d[Output]) <= Jumps(c[Output])
  }

  lemma TrimmedFacts(c: Chains, d: Chains)
    requires Trimmed(c, d) && WellFormed(c)
    ensures Strip(d) == Strip(c) && WellFormed(d)
    ensures AirgapChain !in c ==> d == Strip(c)
  {
    assert Strip(d) == Strip(c);
    if AirgapChain !in c {
      References(c);
      References(d);
      StripFixpoint(d);
    }
  }

  /** What is left after the flush, up to whether the chain could be deleted. */
  lemma AfterFlush(c: Chains, d: Chains, flushStuck: bool)
    requires Trimmed(c, d) && WellFormed(c) && AirgapChain in c
    ensures var e := Flushed(d, flushStuck);
            && AirgapChain in e && WellFormed(e) && Strip(e) == Strip(c)
            && (e[AirgapChain] == [] <==> !flushStuck || c[AirgapChain] == [])
            && (e[AirgapChain] == [] ==> (Referenced(e) <==> ForeignReference(c) || !NoJumps(d)))
  {
    TrimmedFacts(c, d);
    var e := Flushed(d, flushStuck);
    assert Strip(e) == Strip(d);
    SameForeign(e, c);
    if e[AirgapChain] == [] {
      References(e);
    }
  }

  lemma AfterDeletion(e: Chains, deleteStuck: bool)
    requires WellFormed(e) && AirgapChain in e
    ensures var f := Unchained(e, deleteStuck);
            && WellFormed(f) && Strip(f) == Strip(e)
            && (AirgapChain !in f ==> f == Strip(e))
            && (AirgapChain !in f <==> !deleteStuck && e[AirgapChain] == [] && !Referenced(e))
  {
    var f := Unchained(e, deleteStuck);
    if AirgapChain !in f {
      assert Strip(f) == Strip(e);
      References(f);
      StripFixpoint(f);
      assert !Referenced(f);
    }
  }

  lemma RemovalEnds(c: Chains, d: Chains, flushStuck: bool, deleteStuck: bool)
    requires Trimmed(c, d) && WellFormed(c)
    ensures var f := Unchained(Flushed(d, flushStuck), deleteStuck);
            && WellFormed(f) && Strip(f) == Strip(c)
            && (AirgapChain !in f ==> f == Strip(c))
            && (f == Strip(c) <==>
                  NoJumps(d) && (AirgapChain in c ==>
                    !ForeignReference(c) && !deleteStuck && (!flushStuck || c[AirgapChain] == [])))
  {
    TrimmedFacts(c, d);
    if AirgapChain in c {
      AfterFlush(c, d, flushStuck);
      AfterDeletion(Flushed(d, flushStuck), deleteStuck);
      assert AirgapChain !in Strip(c);
    } else {
      StripFixpoint(d);
    }
    hide Strip, Referenced, ForeignReference, WithoutJumps, Jumps;
  }

  /** None of n removing commands from number t on is stuck. */
  predicate Free(stuck: nat -> bool, t: nat, n: nat) {
    forall i | t <= i < t + n :: !stuck(i)
  }

  lemma FreeFirst(fails: nat -> bool, t: nat, n: nat)
    ensures Free(fails, t, n + 1) <==> !fails(t) && Free(fails, t + 1, n)
  {
  }

  lemma FreeOne(fails: nat -> bool, t: nat, n: nat)
    requires n <= 1
    ensures Free(fails, t, n) <==> (n == 1 ==> !fails(t))
  {
  }

  /** How many of n commands from number t on succeed before the first that fails. */
  function FirstFault(fails: nat -> bool, t: nat, n: nat): (q: nat)
    ensures q <= n && Free(fails, t, q) && (q < n ==> fails(t + q))
    decreases n
  {
    if n == 0 || fails(t) then 0
    else
      var q := FirstFault(fails, t + 1, n - 1);
      FreeFirst(fails, t, q);
      1 + q
  }

  lemma {:induction false} FirstFaultIs(fails: nat -> bool, t: nat, n: nat, q: nat)
    requires q <= n && Free(fails, t, q) && (q < n ==> fails(t + q))
    ensures FirstFault(fails, t, n) == q
    decreases q
  {
    if q > 0 {
      FreeFirst(fails, t, q - 1);
      FirstFaultIs(fails, t + 1, n - 1, q - 1);
    }
  }

  /** Both loops: every jump goes exactly when no deletion that has one to delete is stuck. */
  predicate DeletesAll(stuck: nat -> bool, c: Chains, t: nat)
    requires Input in c && Output in c
  {
    Free(stuck, t, Jumps(c[Output])) && Free(stuck, t + Jumps(c[Output]) + 1, Jumps(c[Input]))
  }

  /** The number of the flush command after both loops have deleted everything. */
  function FlushNumber(c: Chains, t: nat): nat
    requires Input in c && Output in c
  {
    t + Jumps(c[Output]) + 1 + Jumps(c[Input]) + 1
  }

  /** The number of the first removing command after a removal that has deleted everything. */
  function NextRemoval(c: Chains, t: nat): nat
    requires Input in c && Output in c
  {
    FlushNumber(c, t) + 2
  }

  /** When removeAirgapFirewallRules restores the rule set completely, read off the state it
      starts from: no command that has work to do is stuck, and nothing else refers to the chain. */
  predicate RemovalWorks(stuck: nat -> bool, c: Chains, t: nat)
    requires Input in c && Output in c
  {
    && DeletesAll(stuck, c, t)
    && (AirgapChain in c ==>
          && !ForeignReference(c)
          && !stuck(FlushNumber(c, t) + 1)
          && (!stuck(FlushNumber(c, t)) || c[AirgapChain] == []))
  }

  /** What a removal that starts at `c` with command number t leaves: the other rules as they
      were, and the chain and its jumps gone exactly when the removal works. */
  predicate RemovedTo(stuck: nat -> bool, c: Chains, t: nat, f: Chains)
    requires Input in c && Output in c
  {
    && WellFormed(f) && Strip(f) == Strip(c)
    && (f == Strip(c) <==> RemovalWorks(stuck, c, t))
    && (AirgapChain !in f ==> f == Strip(c))
  }

  /** `f` is what the flush and the deletion of the chain, from command number r on, leave of `d`. */
  predicate EndsAs(stuck: nat -> bool, d: Chains, r: nat, f: Chains) {
    f == Unchained(Flushed(d, stuck(r)), stuck(r + 1))
  }

  /** What a removal leaves, from what the deletion of the jumps has left. */
  lemma RemovalOutcome(stuck: nat -> bool, c: Chains, t: nat, d: Chains, r: nat, f: Chains)
    requires WellFormed(c) && Trimmed(c, d)
    requires NoJumps(d) <==> DeletesAll(stuck, c, t)
    requires NoJumps(d) ==> r == FlushNumber(c, t)
    requires EndsAs(stuck, d, r, f)
    ensures RemovedTo(stuck, c, t, f)
  {
    assert Input in c && Output in c && Input in d && Output in d;
    hide WellFormed, Trimmed, Strip, ForeignReference, DeletesAll, Flushed, Unchained, NoJumps;
    RemovalEnds(c, d, stuck(r), stuck(r + 1));
  }

  lemma RemovalCounts(stuck: nat -> bool, c: Chains, t: nat)
    requires Input in c && Output in c
    ensures RemovalWorks(stuck, c, t) ==> DeletesAll(stuck, c, t) && NextRemoval(c, t) == FlushNumber(c, t) + 2
  {
  }

  /** With no removing command stuck, only a foreign reference can keep the chain. */
  lemma QuietRemoval(stuck: nat -> bool, c: Chains, t: nat)
    requires WellFormed(c)
    ensures (forall n :: !stuck(n)) ==> (RemovalWorks(stuck, c, t) <==> !ForeignReference(c))
  {
    if ForeignReference(c) {
      ForeignIsReference(c);
    }
  }

  // ---- The commands, and the code that issues them ----

  /** The kernel's rule set, reached through commands that may fail. A command whose number is in
      `fault` (building) or `stuck` (removing) fails without effect for a reason of its own. */
  class Firewall {
    var chains: Chains
    var built: nat
    var removed: nat
    const fault: nat -> bool
    const stuck: nat -> bool

    constructor (chains: Chains, fault: nat -> bool, stuck: nat -> bool)
      ensures this.chains == chains && this.fault == fault && this.stuck == stuck && built == removed == 0
    {
      this.chains, this.fault, this.stuck, built, removed := chains, fault, stuck, 0, 0;
    }

    /** iptables -N */
    method NewChain() returns (ok: bool)
      modifies this`chains, this`built
      ensures built == old(built) + 1 && (ok <==> !fault(old(built)) && AirgapChain !in old(chains))
      ensures chains == if ok then old(chains)[AirgapChain := []] else old(chains)
    {
      ok := !fault(built) && AirgapChain !in chains;
      built := built + 1;
      if ok {
        chains := chains[AirgapChain := []];
      }
    }

    /** iptables -A */
    method Append(rule: Rule) returns (ok: bool)
      modifies this`chains, this`built
      ensures built == old(built) + 1 && (ok <==> !fault(old(built)) && AirgapChain in old(chains))
      ensures chains == if ok then old(chains)[AirgapChain := old(chains)[AirgapChain] + [rule]] else old(chains)
    {
      ok := !fault(built) && AirgapChain in chains;
      built := built + 1;
      if ok {
        chains := chains[AirgapChain := chains[AirgapChain] + [rule]];
      }
    }

    /** iptables -I hook 1 */
    method InsertJump(hook: ChainName) returns (ok: bool)
      modifies this`chains, this`built
      ensures built == old(built) + 1 &&
              (ok <==> !fault(old(built)) && hook in old(chains) && AirgapChain in old(chains))
      ensures chains == if ok then old(chains)[hook := [JUMP] + old(chains)[hook]] else old(chains)
    {
      ok := !fault(built) && hook in chains && AirgapChain in chains;
      built := built + 1;
      if ok {
        chains := chains[hook := [JUMP] + chains[hook]];
      }
    }

    /** iptables -D */
    method DeleteJump(hook: ChainName) returns (ok: bool)
      requires hook in chains
      modifies this`chains, this`removed
      ensures removed == old(removed) + 1
      ensures ok <==> !stuck(old(removed)) && JUMP in old(chains)[hook]
      ensures chains == if ok then old(chains)[hook := DeleteFirst(old(chains)[hook])] else old(chains)
    {
      ok := !stuck(removed) && JUMP in chains[hook];
      removed := removed + 1;
      if ok {
        chains := chains[hook := DeleteFirst(chains[hook])];
      }
    }

    /** iptables -F */
    method Flush()
      modifies this`chains, this`removed
      ensures removed == old(removed) + 1
      ensures chains == Flushed(old(chains), stuck(old(removed)))
    {
      if !stuck(removed) && AirgapChain in chains {
        chains := chains[AirgapChain := []];
      }
      removed := removed + 1;
    }

    /** iptables -X: only an empty chain that nothing refers to can go. */
    method DeleteChain()
      modifies this`chains, this`removed
      ensures removed == old(removed) + 1
      ensures chains == Unchained(old(chains), stuck(old(removed)))
    {
      if !stuck(removed) && AirgapChain in chains && chains[AirgapChain] == [] && !Referenced(chains) {
        chains := chains - {AirgapChain};
      }
      removed := removed + 1;
    }

    /** The loop that deletes jumps until deleting fails. */
    method DeleteJumps(hook: ChainName)
      requires hook in chains
      modifies this`chains, this`removed
      ensures hook in chains && chains == old(chains)[hook := chains[hook]]
      ensures WithoutJumps(chains[hook]) == WithoutJumps(old(chains)[hook])
      ensures Jumps(chains[hook]) <= Jumps(old(chains)[hook])
      ensures Jumps(chains[hook]) == 0 <==> Free(stuck, old(removed), Jumps(old(chains)[hook]))
      ensures Jumps(chains[hook]) == 0 ==> removed == old(removed) + Jumps(old(chains)[hook]) + 1
    {
      hide WithoutJumps, Jumps, DeleteFirst;
      ghost var all := Jumps(chains[hook]);
      while true
        invariant hook in chains && chains == old(chains)[hook := chains[hook]]
        invariant WithoutJumps(chains[hook]) == WithoutJumps(old(chains)[hook])
        invariant Jumps(chains[hook]) <= all && removed == old(removed) + (all - Jumps(chains[hook]))
        invariant Free(stuck, old(removed), all - Jumps(chains[hook]))
        decreases Jumps(chains[hook])
      {
        DeleteFirstFacts(chains[hook]);
        ghost var t := removed;
        var ok := DeleteJump(hook);
        if !ok {
          assert Jumps(chains[hook]) > 0 ==> stuck(t) && old(removed) <= t < old(removed) + all;
          break;
        }
      }
    }

    method DeleteAllJumps()
      requires Input in chains && Output in chains
      modifies this`chains, this`removed
      ensures Trimmed(old(chains), chains)
      ensures NoJumps(chains) <==> DeletesAll(stuck, old(chains), old(removed))
      ensures NoJumps(chains) ==> removed == FlushNumber(old(chains), old(removed))
    {
      DeleteJumps(Output);
      DeleteJumps(Input);
    }

    /** removeAirgapFirewallRules */
    method Remove()
      requires WellFormed(chains)
      modifies this`chains, this`removed
      ensures RemovedTo(stuck, old(chains), old(removed), chains)
      ensures RemovalWorks(stuck, old(chains), old(removed)) ==> removed == NextRemoval(old(chains), old(removed))
    {
      ghost var c, t := chains, removed;
      assert Input in c && Output in c;
      hide *;
      DeleteAllJumps();
      ghost var d, r := chains, removed;
      FlushAndDelete();
      RemovalOutcome(stuck, c, t, d, r, chains);
      RemovalCounts(stuck, c, t);
    }

    method FlushAndDelete()
      modifies this`chains, this`removed
      ensures EndsAs(stuck, old(chains), old(removed), chains) && removed == old(removed) + 2
    {
      Flush();
      DeleteChain();
    }

    /** The rules of applyAirgapFirewallRules, in the order they are appended. */
    method BuildRules(ips: seq<string>) returns (rules: seq<Rule>)
      ensures rules == AirgapRules(ips)
    {
      rules := [Rule(OutLoopback, Accept), Rule(InLoopback, Accept), Rule(Established, Accept), Rule(UdpDns, Accept)];
      assert rules == Accepts(BASE_MATCHES + ServerMatches([]));
      for i := 0 to |ips|
        invariant rules == Accepts(BASE_MATCHES + ServerMatches(ips[..i]))
      {
        assert ips[..i + 1][..i] == ips[..i];
        rules := rules + [Rule(Dst(ips[i]), Accept), Rule(Src(ips[i]), Accept)];
      }
      assert ips[..|ips|] == ips;
      rules := rules + [Rule(Any, Drop)];
    }

    /** The loop over the chain's rules; stops at the first command that fails. */
    method AppendAll(rules: seq<Rule>) returns (ok: bool)
      requires AirgapChain in chains && chains[AirgapChain] == []
      modifies this`chains, this`built
      ensures var q := FirstFault(fault, old(built), |rules|);
              && chains == old(chains)[AirgapChain := rules[..q]]
              && (ok <==> q == |rules|)
              && (ok ==> built == old(built) + |rules|)
    {
      for i := 0 to |rules|
        invariant built == old(built) + i && Free(fault, old(built), i)
        invariant AirgapChain in chains && chains == old(chains)[AirgapChain := rules[..i]]
      {
        ok := Append(rules[i]);
        if !ok {
          FirstFaultIs(fault, old(built), |rules|, i);
          return;
        }
        assert rules[..i + 1] == rules[..i] + [rules[i]];
      }
      FirstFaultIs(fault, old(built), |rules|, |rules|);
      return true;
    }

    /** Filling the new chain and hooking it in. */
    method Build(ips: seq<string>, ghost base: Chains) returns (ok: bool)
      requires Input in base && Output in base && AirgapChain !in base
      requires chains == base[AirgapChain := []]
      modifies this`chains, this`built
      ensures var n := |AirgapRules(ips)| + 2;
              var q := FirstFault(fault, old(built), n);
              chains == Partial(base, ips, 1 + q) && (ok <==> q == n)
    {
      ghost var t := built;
      var rules := BuildRules(ips);
      ghost var n := |rules|;
      Partials(base, ips);
      hide AirgapRules, Partial, FirstFault;
      ok := AppendAll(rules);
      if !ok {
        FirstFaultIs(fault, t, n + 2, FirstFault(fault, t, n));
        return;
      }
      ok := InsertJump(Output);
      if !ok {
        FirstFaultIs(fault, t, n + 2, n);
        return;
      }
      assert Free(fault, t, n + 1);
      ok := InsertJump(Input);
      FirstFaultIs(fault, t, n + 2, if ok then n + 2 else n + 1);
    }

    ghost function Now(): Machine
      reads this
    {
      Machine(chains, built, removed, fault, stuck)
    }

    /** applyAirgapFirewallRules. It succeeds exactly when the stale rules could be removed and none of
        its own commands fails; success puts the airgap in force over whatever other rules there
        were. A failure leaves no trace of the airgap exactly when the stale rules could be
        removed and so could what was built before the failing command. The other rules survive
        in every case. */
    method Apply(ips: seq<string>) returns (ok: bool)
      requires WellFormed(chains)
      modifies this
      ensures AppliedTo(old(Now()), ips, ok, Now())
    {
      ghost var m := Now();
      assert Input in Strip(m.chains) && Output in Strip(m.chains) && AirgapChain !in Strip(m.chains);
      hide *;
      Remove();
      ghost var f := Now();
      AfterRemoval(m.stuck, m.chains, m.removed, f.chains);
      ok := NewChain();
      if !ok {
        NotCreated(m, ips, f, Now());
        return;
      }
      ghost var g := Now();
      ok := BuildOrRollBack(ips, f.chains);
      AfterBuilding(m, ips, f, g, ok, Now());
    }

    method BuildOrRollBack(ips: seq<string>, ghost base: Chains) returns (ok: bool)
      requires Clean(base) && chains == base[AirgapChain := []]
      modifies this
      ensures BuiltTo(old(Now()), base, ips, ok, Now())
    {
      ghost var m := Now();
      CleanFacts(base);
      hide *;
      ghost var q := BuiltAfter(m, ips);
      ok := Build(ips, base);
      ghost var c, u := chains, removed;
      PartialFacts(base, ips, q);
      if !ok {
        Remove();
        AfterRemoval(stuck, c, u, chains);
      }
      BuildingEnds(m, base, ips, ok, Now());
    }
  }

  /** Rules beneath an airgap: no chain of that name, and nothing that refers to one. */
  predicate Clean(base: Chains) {
    Input in base && Output in base && AirgapChain !in base && Strip(base) == base && !Referenced(base)
  }

  lemma CleanFacts(base: Chains)
    requires Clean(base)
    ensures Input in base && Output in base && AirgapChain !in base && Strip(base) == base && !Referenced(base)
  {
  }

  /** How many building commands have succeeded, counting the new chain, once the filling ends. */
  function BuiltAfter(m: Machine, ips: seq<string>): nat {
    1 + FirstFault(m.fault, m.built, |AirgapRules(ips)| + 2)
  }

  predicate BuiltTo(m: Machine, base: Chains, ips: seq<string>, ok: bool, now: Machine)
    requires Clean(base)
  {
    var q := BuiltAfter(m, ips);
    && WellFormed(now.chains) && Strip(now.chains) == base
    && (ok <==> q == |AirgapRules(ips)| + 3)
    && (ok ==> now.chains == InForce(base, ips) && now.removed == m.removed)
    && (!ok ==> (Off(now.chains) <==> RemovalWorks(m.stuck, Partial(base, ips, q), m.removed)))
  }

  lemma BuildingEnds(m: Machine, base: Chains, ips: seq<string>, ok: bool, now: Machine)
    requires Clean(base) && WellFormed(now.chains) && Strip(now.chains) == base
    requires ok <==> BuiltAfter(m, ips) == |AirgapRules(ips)| + 3
    requires ok ==> now.chains == InForce(base, ips) && now.removed == m.removed
    requires !ok ==> (Off(now.chains) <==> RemovalWorks(m.stuck, Partial(base, ips, BuiltAfter(m, ips)), m.removed))
    ensures BuiltTo(m, base, ips, ok, now)
  {
    hide Strip, Referenced, RemovalWorks, Partial, InForce, BuiltAfter, AirgapRules;
  }

  /** What an apply does to a machine. It succeeds exactly when the stale rules could be removed and
      none of its own commands fails, and then the airgap is in force; a failure leaves no trace
      exactly when it rolls back; the other rules survive in every case. */
  predicate AppliedTo(m: Machine, ips: seq<string>, ok: bool, now: Machine)
    requires WellFormed(m.chains)
  {
    && WellFormed(now.chains) && Strip(now.chains) == Strip(m.chains)
    && (ok <==> Applies(m, ips))
    && (ok ==> now.chains == InForce(Strip(m.chains), ips) && now.removed == NextRemoval(m.chains, m.removed))
    && (!ok ==> (Off(now.chains) <==> RollsBack(m, ips)))
  }

  lemma NotCreated(m: Machine, ips: seq<string>, f: Machine, now: Machine)
    requires WellFormed(m.chains) && RemovedTo(m.stuck, m.chains, m.removed, f.chains) && now.chains == f.chains
    requires m.fault(m.built) || AirgapChain in f.chains
    ensures AppliedTo(m, ips, false, now)
  {
    AfterRemoval(m.stuck, m.chains, m.removed, f.chains);
    hide RemovalWorks, Strip, Partial, Referenced, AirgapRules;
  }

  lemma AfterBuilding(m: Machine, ips: seq<string>, f: Machine, g: Machine, ok: bool, now: Machine)
    requires WellFormed(m.chains) && RemovedTo(m.stuck, m.chains, m.removed, f.chains)
    requires !m.fault(m.built) && Clean(f.chains) && f.chains == Strip(m.chains)
    requires RemovalWorks(m.stuck, m.chains, m.removed) && f.removed == NextRemoval(m.chains, m.removed)
    requires g.fault == m.fault && g.stuck == m.stuck && g.built == m.built + 1 && g.removed == f.removed
    requires BuiltTo(g, f.chains, ips, ok, now)
    ensures AppliedTo(m, ips, ok, now)
  {
    assert BuiltBy(m, ips) == BuiltAfter(g, ips);
    hide RemovalWorks, Strip, Partial, Referenced, AirgapRules, FirstFault, InForce;
  }

  /** The rule set, how many building and removing commands were issued so far, and which fail. */
  datatype Machine = Machine(chains: Chains, built: nat, removed: nat, fault: nat -> bool, stuck: nat -> bool)

  /** How many building commands of an apply succeed before the first that fails. */
  function BuiltBy(m: Machine, ips: seq<string>): nat {
    FirstFault(m.fault, m.built, |AirgapRules(ips)| + 3)
  }

  /** The conditions under which applying the rules succeeds. */
  predicate Applies(m: Machine, ips: seq<string>)
    requires WellFormed(m.chains)
  {
    RemovalWorks(m.stuck, m.chains, m.removed) && BuiltBy(m, ips) == |AirgapRules(ips)| + 3
  }

  /** The conditions under which an apply that fails leaves no trace. */
  predicate RollsBack(m: Machine, ips: seq<string>)
    requires WellFormed(m.chains)
  {
    && RemovalWorks(m.stuck, m.chains, m.removed)
    && var q := BuiltBy(m, ips);
       q == 0 || RemovalWorks(m.stuck, Partial(Strip(m.chains), ips, q), NextRemoval(m.chains, m.removed))
  }

  lemma AfterRemoval(stuck: nat -> bool, c: Chains, t: nat, f: Chains)
    requires WellFormed(c) && RemovedTo(stuck, c, t, f)
    ensures WellFormed(f) && Strip(f) == Strip(c)
    ensures AirgapChain !in f ==> f == Strip(c) && Clean(f)
    ensures AirgapChain !in f <==> RemovalWorks(stuck, c, t)
    ensures Off(f) <==> RemovalWorks(stuck, c, t)
  {
    StripTwice(c);
  }

  /** The rule set after q building commands: the new chain, its rules one by one, the two jumps. */
  function Partial(base: Chains, ips: seq<string>, q: nat): (c: Chains)
    requires Input in base && Output in base
    ensures Input in c && Output in c
  {
    var rules := AirgapRules(ips);
    if q == 0 then base
    else
      var filled := base[AirgapChain := if q - 1 <= |rules| then rules[..q - 1] else rules];
      var out := if q >= |rules| + 2 then filled[Output := [JUMP] + base[Output]] else filled;
      if q >= |rules| + 3 then out[Input := [JUMP] + base[Input]] else out
  }

  lemma Partials(base: Chains, ips: seq<string>)
    requires Input in base && Output in base && AirgapChain !in base
    ensures var rules := AirgapRules(ips);
            var filled := base[AirgapChain := rules];
            && (forall q | 0 <= q <= |rules| ::
                  Partial(base, ips, 1 + q) == base[AirgapChain := []][AirgapChain := rules[..q]])
            && rules[..|rules|] == rules
            && Partial(base, ips, |rules| + 2) == filled[Output := [JUMP] + filled[Output]]
            && Partial(base, ips, |rules| + 3) ==
               filled[Output := [JUMP] + filled[Output]][Input := [JUMP] + filled[Input]]
  {
    hide AirgapRules;
  }

  lemma PartialFacts(base: Chains, ips: seq<string>, q: nat)
    requires Clean(base)
    ensures Partial(base, ips, |AirgapRules(ips)| + 3) == InForce(base, ips)
    ensures var c := Partial(base, ips, q); Strip(c) == base && WellFormed(c) && (q > 0 ==> AirgapChain in c && !Off(c))
  {
    hide AirgapRules;
    var c := Partial(base, ips, q);
    assert AirgapChain !in base;
    if q > 0 {
      assert UnderWay(base, c);
      UnderWayFacts(base, c);
    }
  }

  lemma PartialJumps(base: Chains, ips: seq<string>, q: nat)
    requires Clean(base) && q > 0
    ensures var c, n := Partial(base, ips, q), |AirgapRules(ips)|;
            && AirgapChain in c && (c[AirgapChain] == [] <==> q == 1)
            && Jumps(c[Output]) == (if q >= n + 2 then 1 else 0)
            && Jumps(c[Input]) == (if q >= n + 3 then 1 else 0)
  {
    assert |AirgapRules(ips)| > 0;
    StripFixpoint(base);
    hide AirgapRules, Referenced, Strip, WithoutJumps;
    assert ([JUMP] + base[Input])[1..] == base[Input] && ([JUMP] + base[Output])[1..] == base[Output];
  }

  lemma NothingForeign(base: Chains, ips: seq<string>, q: nat)
    requires Clean(base)
    ensures !ForeignReference(Partial(base, ips, q))
  {
    PartialFacts(base, ips, q);
  }

  lemma RemovalOfFew(stuck: nat -> bool, c: Chains, u: nat)
    requires Input in c && Output in c && AirgapChain in c && !ForeignReference(c)
    requires Jumps(c[Output]) <= 1 && Jumps(c[Input]) <= 1
    ensures var outs, ins := Jumps(c[Output]), Jumps(c[Input]);
            var flush := u + outs + 1 + ins + 1;
            RemovalWorks(stuck, c, u) <==>
              && (outs == 1 ==> !stuck(u)) && (ins == 1 ==> !stuck(u + outs + 1))
              && !stuck(flush + 1) && (!stuck(flush) || c[AirgapChain] == [])
  {
    FreeOne(stuck, u, Jumps(c[Output]));
    FreeOne(stuck, u + Jumps(c[Output]) + 1, Jumps(c[Input]));
    hide Jumps, ForeignReference, Free;
  }

  /** Which removing commands a rollback from u on depends on: the deletions of the jumps already
      there, the flush unless the chain is still empty, and the deletion of the chain. */
  lemma RollbackWorks(stuck: nat -> bool, base: Chains, ips: seq<string>, q: nat, u: nat)
    requires Clean(base) && q > 0
    ensures var n := |AirgapRules(ips)|;
            var outs, ins := if q >= n + 2 then 1 else 0, if q >= n + 3 then 1 else 0;
            var flush := u + outs + 1 + ins + 1;
            RemovalWorks(stuck, Partial(base, ips, q), u) <==>
              && (outs == 1 ==> !stuck(u)) && (ins == 1 ==> !stuck(u + 2))
              && !stuck(flush + 1) && (!stuck(flush) || q == 1)
  {
    PartialJumps(base, ips, q);
    NothingForeign(base, ips, q);
    RemovalOfFew(stuck, Partial(base, ips, q), u);
    hide AirgapRules, Referenced, Strip, WithoutJumps, Jumps, Partial, ForeignReference, Free, Clean, RemovalWorks;
  }

  /** A rule set in the middle of an apply: the other rules untouched, the chain there, and a jump
      at the front of a hook or not yet. */
  predicate UnderWay(base: Chains, c: Chains) {
    && Input in base && Output in base && Strip(base) == base && !Referenced(base)
    && c.Keys == base.Keys + {AirgapChain}
    && (forall k | k in base && k != Input && k != Output :: c[k] == base[k])
    && (c[Input] == base[Input] || c[Input] == [JUMP] + base[Input])
    && (c[Output] == base[Output] || c[Output] == [JUMP] + base[Output])
  }

  lemma UnderWayFacts(base: Chains, c: Chains)
    requires UnderWay(base, c)
    ensures Strip(c) == base && WellFormed(c) && !ForeignReference(c)
  {
    StripFixpoint(base);
    forall h | h == Input || h == Output
      ensures WithoutJumps(c[h]) == base[h]
    {
      JumpFacts(base[h]);
      FilterFront([JUMP] + base[h]);
      assert ([JUMP] + base[h])[1..] == base[h];
    }
    assert Strip(c) == base;
  }

  // ---- The mode switch ----

  /** How a call ends: done, or the step that failed. */
  datatype Outcome = Done | NotApplied | Unreachable | NotPersisted

  lemma SameForeign(c: Chains, d: Chains)
    requires Strip(c) == Strip(d)
    ensures ForeignReference(c) <==> ForeignReference(d)
  {
  }

  class Agent {
    const firewall: Firewall
    var enabled: bool
    var file: Option<(bool, seq<string>)>

    constructor (firewall: Firewall, file: Option<(bool, seq<string>)>)
      ensures this.firewall == firewall && !enabled && this.file == file
    {
      this.firewall, enabled, this.file := firewall, false, file;
    }

    /** SetAirgapMode. A call that succeeds leaves flag and file at the requested mode; one that fails
        leaves both as they were. Which outcome it has, and whether the airgap is then off or in
        force, is read off the machine before the call. */
    method SetMode(on: bool, ips: seq<string>, reachable: bool, persistOk: bool) returns (r: Outcome)
      requires WellFormed(firewall.chains)
      modifies this, firewall
      ensures WellFormed(firewall.chains) && Strip(firewall.chains) == old(Strip(firewall.chains))
      ensures r.Done? ==> enabled == on && file == Some((on, ips))
      ensures !r.Done? ==> enabled == old(enabled) && file == old(file)
      ensures r == if on && !Applies(old(firewall.Now()), ips) then NotApplied
                   else if on && !reachable then Unreachable
                   else if !persistOk then NotPersisted else Done
      ensures on && (r.Done? || r.NotPersisted?) ==> firewall.chains == InForce(old(Strip(firewall.chains)), ips)
      ensures Off(firewall.chains) <==> EndsOff(old(firewall.Now()), on, ips, r)
      ensures Called(old(firewall.Now()), on, r, ips, old(enabled), enabled, firewall.chains)
    {
      ghost var m := firewall.Now();
      StripTwice(m.chains);
      ghost var base := Strip(m.chains);
      assert Input in base && Output in base && AirgapChain !in base;
      hide Strip, InForce, ForeignReference, Referenced, RemovalWorks, Applies, RollsBack, Partial;
      if on {
        var ok := firewall.Apply(ips);
        if !ok {
          return NotApplied;
        }
        InForceIsOn(base, ips);
        if !reachable {
          firewall.Remove();
          AfterRemoval(m.stuck, InForce(base, ips), NextRemoval(m.chains, m.removed), firewall.chains);
          return Unreachable;
        }
      } else {
        firewall.Remove();
        AfterRemoval(m.stuck, m.chains, m.removed, firewall.chains);
      }
      if !persistOk {
        return NotPersisted;
      }
      file := Some((on, ips));
      enabled := on;
      return Done;
    }

    /** loadAirgapState at startup. */
    method Load() returns (applied: bool)
      requires WellFormed(firewall.chains)
      modifies this, firewall
      ensures file == old(file) && Strip(firewall.chains) == old(Strip(firewall.chains))
      ensures enabled == if file.Some? then file.value.0 else old(enabled)
      ensures applied ==> file.Some? && firewall.chains == InForce(old(Strip(firewall.chains)), file.value.1)
      ensures !applied && (file.None? || !file.value.0) ==> firewall.chains == old(firewall.chains)
      ensures applied <==> file.Some? && file.value.0 && Applies(old(firewall.Now()), file.value.1)
      ensures !applied && file.Some? && file.value.0 ==>
              (Off(firewall.chains) <==> RollsBack(old(firewall.Now()), file.value.1))
    {
      applied := false;
      if file.Some? {
        enabled := file.value.0;
        if file.value.0 {
          applied := firewall.Apply(file.value.1);
        }
      }
    }
  }

  /** The flag tells the truth about the firewall. */
  predicate Agrees(enabled: bool, chains: Chains) {
    enabled <==> !Off(chains)
  }

  lemma InForceIsOn(base: Chains, ips: seq<string>)
    requires Input in base && Output in base
    ensures !Off(InForce(base, ips))
  {
    assert AirgapChain in InForce(base, ips) && AirgapChain !in Strip(InForce(base, ips));
  }

  /** When a call with this outcome leaves no trace of the airgap. */
  predicate EndsOff(m: Machine, on: bool, ips: seq<string>, r: Outcome)
    requires WellFormed(m.chains)
  {
    if !on then RemovalWorks(m.stuck, m.chains, m.removed)
    else match r
      case NotApplied => RollsBack(m, ips)
      case Unreachable => RemovalWorks(m.stuck, InForce(Strip(m.chains), ips), NextRemoval(m.chains, m.removed))
      case _ => false
  }

  /** What SetMode promises of a call, over the state before and after it. */
  predicate Called(m: Machine, on: bool, r: Outcome, ips: seq<string>, wasOn: bool, isOn: bool, now: Chains)
    requires WellFormed(m.chains)
  {
    && isOn == (if r.Done? then on else wasOn)
    && (Off(now) <==> EndsOff(m, on, ips, r))
  }

  /** Exactly when a call leaves flag and firewall in agreement. After a success: when it enabled, or
      its removal worked. After a failed enable: when the flag was off and the rollback worked, or
      the flag was on and it did not. With only the state file failing: when the flag was at the
      requested mode already, unless a removal that did not work left the airgap on. */
  lemma AgreementAfterCall(m: Machine, on: bool, r: Outcome, ips: seq<string>, wasOn: bool, isOn: bool, now: Chains)
    requires WellFormed(m.chains) && Called(m, on, r, ips, wasOn, isOn, now)
    requires !on ==> r.Done? || r.NotPersisted?
    ensures var works := RemovalWorks(m.stuck, m.chains, m.removed);
            Agrees(isOn, now) <==>
            match r
            case Done => on || works
            case NotApplied => wasOn <==> !RollsBack(m, ips)
            case Unreachable =>
              var again := RemovalWorks(m.stuck, InForce(Strip(m.chains), ips), NextRemoval(m.chains, m.removed));
              wasOn <==> !again
            case NotPersisted => if on then wasOn else wasOn <==> !works
  {
  }

  /** Disabling while the deletion of a jump is stuck: the call succeeds, the flag is off, and the
      airgap is still there. */
  lemma StuckDisable(m: Machine, base: Chains, ips: seq<string>, wasOn: bool, isOn: bool, now: Chains)
    requires Input in base && Output in base && WellFormed(m.chains) && m.chains == InForce(base, ips)
    requires m.stuck(m.removed) && Called(m, false, Done, ips, wasOn, isOn, now)
    ensures !isOn && !Off(now) && !Agrees(isOn, now)
  {
    assert m.chains[Output][0] == JUMP;
    assert Jumps(m.chains[Output]) > 0;
  }

  /** On a machine where no removing command is stuck and nothing foreign refers to the chain, every
      success ends in agreement, and a failed enable does exactly when the flag was off. */
  lemma UndisturbedAgreement(m: Machine, on: bool, r: Outcome, ips: seq<string>, wasOn: bool, isOn: bool, now: Chains)
    requires WellFormed(m.chains) && Called(m, on, r, ips, wasOn, isOn, now)
    requires (!on ==> r.Done? || r.NotPersisted?) && !ForeignReference(m.chains) && forall n :: !m.stuck(n)
    ensures Agrees(isOn, now) <==>
            match r
            case Done => true
            case NotApplied => !wasOn
            case Unreachable => !wasOn
            case NotPersisted => wasOn == on
  {
    var base := Strip(m.chains);
    StripTwice(m.chains);
    QuietRemoval(m.stuck, m.chains, m.removed);
    PartialFacts(base, ips, BuiltBy(m, ips));
    PartialFacts(base, ips, |AirgapRules(ips)| + 3);
    var c, u := Partial(base, ips, BuiltBy(m, ips)), NextRemoval(m.chains, m.removed);
    SameForeign(c, base);
    SameForeign(InForce(base, ips), base);
    QuietRemoval(m.stuck, c, u);
    QuietRemoval(m.stuck, InForce(base, ips), u);
    hide Partial, InForce, Strip, RemovalWorks, ForeignReference, AirgapRules;
  }
}
