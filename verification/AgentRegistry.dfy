/** The index of agents by identity and by session (agent_registry.rs): two maps updated
    together, with protection against releases of an older generation. */
module AgentRegistry {
  import opened Wrappers

  datatype Info = Info(hostname: string, os: string, arch: string, clientIp: string, version: string)

  datatype Agent = Agent(
    user: string,
    agentId: string,
    sessionId: string,
    generation: nat,
    info: Info,
    tunnelCount: nat,
    online: bool,
    disconnectedAt: Option<int>)

  datatype Spec = Spec(user: string, agentId: string, sessionId: string, generation: nat, info: Info)

  datatype Index = Index(byKey: map<string, Agent>, bySession: map<string, string>)

  function ComposeKey(user: string, id: string): string {
    if user == "" then id
    else if id == "" then user
    else user + "." + id
  }

  /** Agents without an id of their own are known by their session. */
  function KeyOf(user: string, agentId: string, sessionId: string): string {
    ComposeKey(user, if agentId != "" then agentId else sessionId)
  }

  function SpecKey(spec: Spec): string {
    KeyOf(spec.user, spec.agentId, spec.sessionId)
  }

  function Offline(a: Agent, now: int, tunnelCount: nat): Agent {
    a.(generation := 0, online := false, tunnelCount := tunnelCount, disconnectedAt := Some(now))
  }

  /** An explicit agent id that another session holds online. */
  predicate Conflicts(ix: Index, spec: Spec) {
    && spec.agentId != ""
    && SpecKey(spec) in ix.byKey
    && var a := ix.byKey[SpecKey(spec)]; a.online && a.sessionId != "" && a.sessionId != spec.sessionId
  }

  /** An agent leaves: forgotten if it has no id of its own, else kept as offline. */
  function Retire(byKey: map<string, Agent>, key: string, now: int, tunnelCount: nat): map<string, Agent>
    requires key in byKey
  {
    if byKey[key].agentId == "" then byKey - {key}
    else byKey[key := Offline(byKey[key], now, tunnelCount)]
  }

  /** The agent this session had under another key, if any, leaves. */
  function Displaced(ix: Index, sid: string, key: string, now: int): Index {
    if sid !in ix.bySession || ix.bySession[sid] == key then ix
    else
      var prev := ix.bySession[sid];
      Index(if prev in ix.byKey && ix.byKey[prev].sessionId == sid
            then Retire(ix.byKey, prev, now, ix.byKey[prev].tunnelCount) else ix.byKey,
            ix.bySession - {sid})
  }

  function Seated(ix: Index, spec: Spec, key: string): Index {
    if key in ix.byKey then
      var a := ix.byKey[key];
      var bySession := if a.sessionId != "" && a.sessionId != spec.sessionId
                       then ix.bySession - {a.sessionId} else ix.bySession;
      Index(ix.byKey[key := Agent(spec.user, spec.agentId, spec.sessionId, spec.generation, spec.info,
                                  a.tunnelCount, true, None)],
            bySession[spec.sessionId := key])
    else
      Index(ix.byKey[key := Agent(spec.user, spec.agentId, spec.sessionId, spec.generation, spec.info,
                                  0, true, None)],
            ix.bySession[spec.sessionId := key])
  }

  function Online(ix: Index, spec: Spec, now: int): Index {
    Seated(Displaced(ix, spec.sessionId, SpecKey(spec), now), spec, SpecKey(spec))
  }

  /** The session is indexed and its agent still is of this generation. */
  predicate Releases(ix: Index, sid: string, generation: nat) {
    && sid in ix.bySession && ix.bySession[sid] in ix.byKey
    && var a := ix.byKey[ix.bySession[sid]]; a.sessionId == sid && a.generation == generation
  }

  function Released(ix: Index, sid: string, generation: nat, tunnelCount: nat, now: int): Index {
    if Releases(ix, sid, generation) then
      Index(Retire(ix.byKey, ix.bySession[sid], now, tunnelCount), ix.bySession - {sid})
    else if sid in ix.bySession && ix.bySession[sid] !in ix.byKey then ix.(bySession := ix.bySession - {sid})
    else ix
  }

  class Registry {
    var byKey: map<string, Agent>
    var bySession: map<string, string>

    constructor ()
      ensures View() == Index(map[], map[])
    {
      byKey := map[];
      bySession := map[];
    }

    function View(): Index
      reads this
    {
      Index(byKey, bySession)
    }

    method TryOnline(spec: Spec, now: int) returns (r: Result<string, ()>)
      modifies this
      ensures r.Err? <==> Conflicts(old(View()), spec)
      ensures r.Err? ==> View() == old(View())
      ensures r.Ok? ==> r.value == SpecKey(spec) && View() == Online(old(View()), spec, now)
    {
      var explicit := spec.agentId != "";
      var key := ComposeKey(spec.user, if explicit then spec.agentId else spec.sessionId);
      if explicit && key in byKey {
        var existing := byKey[key];
        if existing.online && existing.sessionId != "" && existing.sessionId != spec.sessionId {
          return Err(());
        }
      }
      if spec.sessionId in bySession {
        var prevKey := bySession[spec.sessionId];
        if prevKey != key {
          if prevKey in byKey && byKey[prevKey].sessionId == spec.sessionId {
            RetireAt(prevKey, now, byKey[prevKey].tunnelCount);
          }
          bySession := bySession - {spec.sessionId};
        }
      }
      var count := 0;
      if key in byKey {
        var entry := byKey[key];
        if entry.sessionId != "" && entry.sessionId != spec.sessionId {
          bySession := bySession - {entry.sessionId};
        }
        count := entry.tunnelCount;
      }
      byKey := byKey[key := Agent(spec.user, spec.agentId, spec.sessionId, spec.generation, spec.info, count, true, None)];
      bySession := bySession[spec.sessionId := key];
      r := Ok(key);
    }

    method RetireAt(key: string, now: int, tunnelCount: nat)
      requires key in byKey
      modifies this
      ensures byKey == Retire(old(byKey), key, now, tunnelCount) && bySession == old(bySession)
    {
      if byKey[key].agentId == "" {
        byKey := byKey - {key};
      } else {
        byKey := byKey[key := Offline(byKey[key], now, tunnelCount)];
      }
    }

    method Release(sid: string, generation: nat, tunnelCount: nat, now: int)
      modifies this
      ensures View() == Released(old(View()), sid, generation, tunnelCount, now)
    {
      if sid !in bySession {
        return;
      }
      var key := bySession[sid];
      if key !in byKey {
        bySession := bySession - {sid};
        return;
      }
      if byKey[key].sessionId != sid || byKey[key].generation != generation {
        return;
      }
      bySession := bySession - {sid};
      RetireAt(key, now, tunnelCount);
    }
  }

  // ---------- the index points at online agents of its sessions ----------

  predicate Indexed(ix: Index) {
    && "" !in ix.bySession
    && forall sid <- ix.bySession ::
         var key := ix.bySession[sid];
         key in ix.byKey && ix.byKey[key].online && ix.byKey[key].sessionId == sid
  }

  predicate EveryOnlineIndexed(ix: Index) {
    forall key <- ix.byKey :: ix.byKey[key].online ==>
      ix.byKey[key].sessionId in ix.bySession && ix.bySession[ix.byKey[key].sessionId] == key
  }

  datatype Op = Login(spec: Spec) | Leave(sid: string, generation: nat, tunnelCount: nat)

  function Step(ix: Index, op: Op, now: int): Index {
    match op
    case Login(spec) => if Conflicts(ix, spec) then ix else Online(ix, spec, now)
    case Leave(sid, generation, tunnelCount) => Released(ix, sid, generation, tunnelCount, now)
  }

  function Run(ops: seq<(Op, int)>): Index {
    if ops == [] then Index(map[], map[])
    else Step(Run(ops[..|ops| - 1]), ops[|ops| - 1].0, ops[|ops| - 1].1)
  }

  /** register_control never logs in without a session id. */
  ghost predicate NamedSessions(ops: seq<(Op, int)>) {
    forall i :: 0 <= i < |ops| && ops[i].0.Login? ==> ops[i].0.spec.sessionId != ""
  }

  lemma StepKeepsIndexed(ix: Index, op: Op, now: int)
    requires Indexed(ix) && (op.Login? ==> op.spec.sessionId != "")
    ensures Indexed(Step(ix, op, now))
  {
  }

  /** After any run of logins and releases, a session is indexed only to an agent that is online
      and carries it; so no two sessions are indexed to one agent. */
  lemma {:induction false} IndexIsSound(ops: seq<(Op, int)>)
    requires NamedSessions(ops)
    ensures Indexed(Run(ops))
    ensures var s := Run(ops).bySession; forall x <- s, y <- s :: s[x] == s[y] ==> x == y
    decreases |ops|
  {
    if ops != [] {
      IndexIsSound(ops[..|ops| - 1]);
      StepKeepsIndexed(Run(ops[..|ops| - 1]), ops[|ops| - 1].0, ops[|ops| - 1].1);
    }
  }

  predicate OnlineUnder(ix: Index, key: string, sid: string) {
    key in ix.byKey && ix.byKey[key].online && ix.byKey[key].sessionId == sid
  }

  /** A login that is not refused leaves its session indexed to the agent it described, and
      agents of other sessions stay. Of the other agents online under this session it takes
      offline exactly the one the session was indexed to: so if every online agent was indexed,
      no other is left under it. */
  lemma LoginSeatsItsAgent(ix: Index, spec: Spec, now: int)
    requires Indexed(ix) && spec.sessionId != "" && !Conflicts(ix, spec)
    ensures var ix' := Online(ix, spec, now);
            var key := SpecKey(spec);
            && spec.sessionId in ix'.bySession && ix'.bySession[spec.sessionId] == key
            && key in ix'.byKey && ix'.byKey[key].online && ix'.byKey[key].generation == spec.generation
            && (forall k <- ix.byKey :: k != key && ix.byKey[k].sessionId != spec.sessionId ==>
                  k in ix'.byKey && ix'.byKey[k] == ix.byKey[k])
            && (forall k :: k != key ==>
                  (OnlineUnder(ix', k, spec.sessionId)
                   <==> OnlineUnder(ix, k, spec.sessionId)
                        && !(spec.sessionId in ix.bySession && ix.bySession[spec.sessionId] == k)))
            && (EveryOnlineIndexed(ix) ==> forall k :: k != key ==> !OnlineUnder(ix', k, spec.sessionId))
  {
  }

  /** A release takes effect exactly when the session is indexed to an agent of this very
      generation; then the agent is offline or gone, and the session is no longer indexed. */
  lemma ReleaseNeedsTheGeneration(ix: Index, sid: string, generation: nat, tunnelCount: nat, now: int)
    requires Indexed(ix)
    ensures var ix' := Released(ix, sid, generation, tunnelCount, now);
            && (ix' != ix <==> sid in ix.bySession && ix.byKey[ix.bySession[sid]].generation == generation)
            && (ix' != ix ==>
                  && sid !in ix'.bySession
                  && var key := ix.bySession[sid];
                     key in ix'.byKey ==> !ix'.byKey[key].online && ix'.byKey[key].tunnelCount == tunnelCount)
  {
    if Releases(ix, sid, generation) {
      assert sid !in Released(ix, sid, generation, tunnelCount, now).bySession;
    }
  }

  // ---------- is every online agent indexed? ----------

  /** The agent being seated was last used by a session that is now indexed elsewhere. */
  predicate Orphans(ix: Index, spec: Spec) {
    && SpecKey(spec) in ix.byKey
    && var last := ix.byKey[SpecKey(spec)].sessionId;
       last != "" && last != spec.sessionId && last in ix.bySession && ix.bySession[last] != SpecKey(spec)
  }

  /** A login keeps every online agent indexed exactly when its agent's last session is not in
      use for another agent. */
  lemma LoginKeepsOnlineIndexedIff(ix: Index, spec: Spec, now: int)
    requires Indexed(ix) && EveryOnlineIndexed(ix) && spec.sessionId != "" && !Conflicts(ix, spec)
    ensures EveryOnlineIndexed(Online(ix, spec, now)) <==> !Orphans(ix, spec)
  {
    if Orphans(ix, spec) {
      var last := ix.byKey[SpecKey(spec)].sessionId;
      var key := ix.bySession[last];
      assert key in Online(ix, spec, now).byKey && Online(ix, spec, now).byKey[key] == ix.byKey[key];
    }
  }

  lemma ReleaseKeepsOnlineIndexed(ix: Index, sid: string, generation: nat, tunnelCount: nat, now: int)
    requires Indexed(ix) && EveryOnlineIndexed(ix)
    ensures EveryOnlineIndexed(Released(ix, sid, generation, tunnelCount, now))
  {
  }

  /** Each session id always logs in with the same user and agent id. */
  ghost predicate FixedIdentity(ops: seq<(Op, int)>, ids: map<string, (string, string)>) {
    forall i :: 0 <= i < |ops| && ops[i].0.Login? ==>
      var spec := ops[i].0.spec; spec.sessionId in ids && ids[spec.sessionId] == (spec.user, spec.agentId)
  }

  /** Every agent sits under the key of the session it was last used by. */
  ghost predicate KeyedBySession(ix: Index, ids: map<string, (string, string)>) {
    forall key <- ix.byKey ::
      var sid := ix.byKey[key].sessionId;
      sid in ids && key == KeyOf(ids[sid].0, ids[sid].1, sid)
  }

  lemma StepKeepsKeyed(ix: Index, op: Op, now: int, ids: map<string, (string, string)>)
    requires KeyedBySession(ix, ids)
    requires op.Login? ==> op.spec.sessionId in ids && ids[op.spec.sessionId] == (op.spec.user, op.spec.agentId)
    ensures KeyedBySession(Step(ix, op, now), ids)
  {
  }

  /** With fixed identities, every online agent stays indexed over any run, so it can always be
      released. */
  lemma {:induction false} FixedIdentityIndexesEveryOnline(ops: seq<(Op, int)>, ids: map<string, (string, string)>)
    requires NamedSessions(ops) && FixedIdentity(ops, ids)
    ensures KeyedBySession(Run(ops), ids) && EveryOnlineIndexed(Run(ops))
    decreases |ops|
  {
    if ops != [] {
      var before := ops[..|ops| - 1];
      var (op, now) := ops[|ops| - 1];
      FixedIdentityIndexesEveryOnline(before, ids);
      IndexIsSound(before);
      var ix := Run(before);
      StepKeepsKeyed(ix, op, now, ids);
      match op
      case Login(spec) =>
        if !Conflicts(ix, spec) {
          LoginKeepsOnlineIndexedIff(ix, spec, now);
        }
      case Leave(sid, generation, tunnelCount) => ReleaseKeepsOnlineIndexed(ix, sid, generation, tunnelCount, now);
    }
  }

  /** Without fixed identities it fails: session "x" logs in as agent "a", then as "b"; session
      "y" takes "a" over, and "b" stays online although no release of "x" reaches it. */
  lemma ChangedIdentityOrphans(info: Info, now: int, count: nat)
    ensures var ops := [(Login(Spec("", "a", "x", 1, info)), now), (Login(Spec("", "b", "x", 2, info)), now),
                        (Login(Spec("", "a", "y", 3, info)), now)];
            var ix := Run(ops);
            && "b" in ix.byKey && ix.byKey["b"].online && "x" !in ix.bySession
            && Released(ix, "x", 2, count, now) == ix
  {
    var op1 := (Login(Spec("", "a", "x", 1, info)), now);
    var op2 := (Login(Spec("", "b", "x", 2, info)), now);
    var op3 := (Login(Spec("", "a", "y", 3, info)), now);
    assert [op1, op2, op3][..2] == [op1, op2] && [op1, op2][..1] == [op1];
    var ix1 := Run([op1]);
    assert Run([op1][..0]) == Index(map[], map[]);
    assert ix1 == Step(Run([op1][..0]), op1.0, now);
    assert ix1.byKey == map["a" := Agent("", "a", "x", 1, info, 0, true, None)] && ix1.bySession == map["x" := "a"];
    var ix2 := Run([op1, op2]);
    assert ix2.byKey["a"] == Agent("", "a", "x", 0, info, 0, false, Some(now));
    assert ix2.bySession == map["x" := "b"];
    var ix3 := Run([op1, op2, op3]);
    assert ix3 == Step(ix2, op3.0, now);
  }
}
