/** What an agent's key is, in terms of user and id, and what that means for the agents of different
    users (agent_registry.rs). */
module AgentIdentity {
  import opened Wrappers
  import opened AgentRegistry

  predicate DotFree(user: string) {
    '.' !in user
  }

  // ---------- when two keys are equal ----------

  lemma CharsOf(a: string, x: string)
    ensures (a + ['.'] + x)[|a|] == '.'
    ensures forall i :: 0 <= i < |a| ==> (a + ['.'] + x)[i] == a[i] && a[i] in a
  {
  }

  /** The first dot tells a user without a dot from the rest. */
  lemma FirstDot(a: string, x: string, b: string, y: string)
    requires DotFree(a) && DotFree(b) && a + ['.'] + x == b + ['.'] + y
    ensures a == b && x == y
  {
    CharsOf(a, x);
    CharsOf(b, y);
    if |a| < |b| || |b| < |a| {
      assert false;
    }
    var k := a + ['.'] + x;
    assert a == k[..|a|] == b && x == k[|a| + 1..] == y;
  }

  /** Users that are not empty and have no dot keep their agents apart: two keys are equal exactly if
      user and id are. */
  lemma KeysAreEqualIff(u: string, i: string, v: string, j: string)
    requires u != "" && v != "" && DotFree(u) && DotFree(v) && i != "" && j != ""
    ensures ComposeKey(u, i) == ComposeKey(v, j) <==> u == v && i == j
  {
    assert "." == ['.'];
    if ComposeKey(u, i) == ComposeKey(v, j) {
      FirstDot(u, i, v, j);
    }
  }

  /** Without a user the key is the id, without an id the user; an agent without an id of its own is
      known by its session; so a user's agent has the key of a certain agent without a user. */
  lemma KeysOfParts(user: string, agentId: string, sid: string)
    ensures ComposeKey("", agentId) == agentId && ComposeKey(user, "") == user
    ensures KeyOf("", agentId, sid) == if agentId != "" then agentId else sid
    ensures agentId == "" ==> KeyOf(user, agentId, sid) == ComposeKey(user, sid)
    ensures agentId != "" ==> KeyOf(user, agentId, sid) == ComposeKey(user, agentId)
    ensures user != "" && agentId != "" ==> ComposeKey(user, agentId) == ComposeKey("", user + "." + agentId)
  {
  }

  /** In general, for two pairs of a user and an id that are not empty, the first user the shorter one:
      the keys are equal exactly if the pairs are, or if the second user is the first, a dot and
      something with which the first id begins, a dot following. */
  lemma KeysCollideIff(u: string, i: string, v: string, j: string)
    requires u != "" && i != "" && v != "" && j != "" && |u| <= |v|
    ensures ComposeKey(u, i) == ComposeKey(v, j)
            <==> (u == v && i == j) || exists mid :: v == u + ['.'] + mid && i == mid + ['.'] + j
  {
    var k, l := u + ['.'] + i, v + ['.'] + j;
    assert "." == ['.'];
    assert ComposeKey(u, i) == k && ComposeKey(v, j) == l;
    if k == l {
      assert u == k[..|u|] && v == l[..|v|];
      if |u| == |v| {
        assert i == k[|u| + 1..] && j == l[|u| + 1..];
      } else {
        var mid := v[|u| + 1..];
        assert v[|u|] == l[|u|] == k[|u|] == '.';
        assert v == u + ['.'] + mid;
        assert l == u + ['.'] + (mid + ['.'] + j);
        assert i == k[|u| + 1..] == mid + ['.'] + j;
      }
    }
    forall mid | v == u + ['.'] + mid && i == mid + ['.'] + j ensures k == l {
      assert k == u + ['.'] + mid + ['.'] + j;
    }
  }

  /** Two users, one of them with a dot, whose agents have one key. */
  lemma DottedUsersCollide()
    ensures ComposeKey("a.b", "c") == ComposeKey("a", "b.c") == "a.b.c"
  {
  }

  // ---------- agents of different users ----------

  /** What an agent is called among those of its user. */
  function IdOf(a: Agent): string {
    if a.agentId != "" then a.agentId else a.sessionId
  }

  /** Every agent sits under its own key, has a session and a user without a dot. */
  ghost predicate OwnKeys(ix: Index) {
    forall key <- ix.byKey ::
      var a := ix.byKey[key];
      key == KeyOf(a.user, a.agentId, a.sessionId) && a.sessionId != "" && a.user != "" && DotFree(a.user)
  }

  /** Every login has a session and a user without a dot. */
  ghost predicate PlainLogins(ops: seq<(Op, int)>) {
    forall i :: 0 <= i < |ops| && ops[i].0.Login? ==>
      ops[i].0.spec.sessionId != "" && ops[i].0.spec.user != "" && DotFree(ops[i].0.spec.user)
  }

  lemma StepKeepsOwnKeys(ix: Index, op: Op, now: int)
    requires OwnKeys(ix) && (op.Login? ==> op.spec.sessionId != "" && op.spec.user != "" && DotFree(op.spec.user))
    ensures OwnKeys(Step(ix, op, now))
  {
    hide ComposeKey;
  }

  lemma {:induction false} RunKeepsOwnKeys(ops: seq<(Op, int)>)
    requires PlainLogins(ops)
    ensures OwnKeys(Run(ops)) && NamedSessions(ops)
    decreases |ops|
  {
    if ops != [] {
      RunKeepsOwnKeys(ops[..|ops| - 1]);
      StepKeepsOwnKeys(Run(ops[..|ops| - 1]), ops[|ops| - 1].0, ops[|ops| - 1].1);
    }
  }

  lemma SameKeySameUser(a: Agent, spec: Spec)
    requires a.user != "" && DotFree(a.user) && a.sessionId != ""
    requires spec.user != "" && DotFree(spec.user) && spec.sessionId != ""
    ensures KeyOf(a.user, a.agentId, a.sessionId) == SpecKey(spec)
            <==> a.user == spec.user && IdOf(a) == if spec.agentId != "" then spec.agentId else spec.sessionId
  {
    KeysAreEqualIff(a.user, IdOf(a), spec.user, if spec.agentId != "" then spec.agentId else spec.sessionId);
  }

  /** After any run of logins of users without a dot: a login with an agent id is refused exactly if an
      agent of the same user and of that very id is online in another session. */
  lemma RefusedIff(ops: seq<(Op, int)>, spec: Spec)
    requires PlainLogins(ops) && spec.user != "" && DotFree(spec.user) && spec.sessionId != ""
    ensures Conflicts(Run(ops), spec)
            <==> spec.agentId != "" && exists key <- Run(ops).byKey ::
                   var a := Run(ops).byKey[key];
                   a.online && a.user == spec.user && IdOf(a) == spec.agentId && a.sessionId != spec.sessionId
  {
    RunKeepsOwnKeys(ops);
    var ix := Run(ops);
    hide Run;
    if Conflicts(ix, spec) {
      SameKeySameUser(ix.byKey[SpecKey(spec)], spec);
    }
    forall key <- ix.byKey | spec.agentId != "" && ix.byKey[key].user == spec.user && IdOf(ix.byKey[key]) == spec.agentId
      ensures key == SpecKey(spec)
    {
      SameKeySameUser(ix.byKey[key], spec);
    }
  }

  /** A login leaves an agent under another key as it is, unless that was last used by the session that
      logs in; and leaves its session indexed to it exactly if the agent that logs in was not last used
      by that session. */
  lemma OtherAgentStays(ix: Index, spec: Spec, now: int, key: string, sid: string)
    requires Indexed(ix) && OwnKeys(ix) && key in ix.byKey && key != SpecKey(spec) && ix.byKey[key].sessionId != spec.sessionId
    requires !Conflicts(ix, spec) && sid in ix.bySession && ix.bySession[sid] == key
    ensures var ix' := Step(ix, Login(spec), now);
            && key in ix'.byKey && ix'.byKey[key] == ix.byKey[key]
            && (sid in ix'.bySession && ix'.bySession[sid] == key
                <==> !(SpecKey(spec) in ix.byKey && ix.byKey[SpecKey(spec)].sessionId == sid))
  {
    hide ComposeKey;
  }

  lemma OtherEntryStays(ix: Index, spec: Spec, now: int, key: string)
    requires Indexed(ix) && key in ix.byKey && key != SpecKey(spec) && ix.byKey[key].sessionId != spec.sessionId
    ensures var ix' := Step(ix, Login(spec), now); key in ix'.byKey && ix'.byKey[key] == ix.byKey[key]
  {
    hide ComposeKey;
  }

  /** Each session always logs in for one user. */
  ghost predicate OneUserEach(ops: seq<(Op, int)>, users: map<string, string>) {
    forall i :: 0 <= i < |ops| && ops[i].0.Login? ==>
      ops[i].0.spec.sessionId in users && users[ops[i].0.spec.sessionId] == ops[i].0.spec.user
  }

  ghost predicate UsersKnown(ix: Index, users: map<string, string>) {
    forall key <- ix.byKey :: ix.byKey[key].sessionId in users && users[ix.byKey[key].sessionId] == ix.byKey[key].user
  }

  lemma StepKeepsUsers(ix: Index, op: Op, now: int, users: map<string, string>)
    requires UsersKnown(ix, users)
    requires op.Login? ==> op.spec.sessionId in users && users[op.spec.sessionId] == op.spec.user
    ensures UsersKnown(Step(ix, op, now), users)
  {
    hide ComposeKey;
  }

  lemma {:induction false} RunKeepsUsers(ops: seq<(Op, int)>, users: map<string, string>)
    requires OneUserEach(ops, users)
    ensures UsersKnown(Run(ops), users)
    decreases |ops|
  {
    if ops != [] {
      RunKeepsUsers(ops[..|ops| - 1], users);
      StepKeepsUsers(Run(ops[..|ops| - 1]), ops[|ops| - 1].0, ops[|ops| - 1].1, users);
    }
  }

  /** After any run of logins of users without a dot, each session for one user: whoever logs in, every
      agent of another user stays as it is, and indexed by its session if it was. */
  lemma UsersDoNotInterfere(ops: seq<(Op, int)>, users: map<string, string>, spec: Spec, now: int)
    requires PlainLogins(ops + [(Login(spec), now)]) && OneUserEach(ops + [(Login(spec), now)], users)
    ensures var ix, ix' := Run(ops), Run(ops + [(Login(spec), now)]);
            forall key <- ix.byKey :: ix.byKey[key].user != spec.user ==>
              && key in ix'.byKey && ix'.byKey[key] == ix.byKey[key]
              && forall sid <- ix.bySession :: ix.bySession[sid] == key ==> sid in ix'.bySession && ix'.bySession[sid] == key
  {
    var all := ops + [(Login(spec), now)];
    assert all[|ops|] == (Login(spec), now) && all[..|ops|] == ops;
    assert forall i :: 0 <= i < |ops| ==> all[i] == ops[i];
    assert Run(all) == Step(Run(ops), Login(spec), now);
    RunKeepsOwnKeys(ops);
    RunKeepsUsers(ops, users);
    IndexIsSound(ops);
    var ix := Run(ops);
    OthersStay(ix, users, spec, now);
  }

  lemma OthersStay(ix: Index, users: map<string, string>, spec: Spec, now: int)
    requires Indexed(ix) && OwnKeys(ix) && UsersKnown(ix, users)
    requires spec.user != "" && DotFree(spec.user) && spec.sessionId != ""
    requires spec.sessionId in users && users[spec.sessionId] == spec.user
    ensures var ix' := Step(ix, Login(spec), now);
            forall key <- ix.byKey :: ix.byKey[key].user != spec.user ==>
              && key in ix'.byKey && ix'.byKey[key] == ix.byKey[key]
              && forall sid <- ix.bySession :: ix.bySession[sid] == key ==> sid in ix'.bySession && ix'.bySession[sid] == key
  {
    hide ComposeKey;
    var ix' := Step(ix, Login(spec), now);
    forall key <- ix.byKey | ix.byKey[key].user != spec.user
      ensures key in ix'.byKey && ix'.byKey[key] == ix.byKey[key]
      ensures forall sid <- ix.bySession :: ix.bySession[sid] == key ==> sid in ix'.bySession && ix'.bySession[sid] == key
    {
      SameKeySameUser(ix.byKey[key], spec);
      hide Step;
      if !Conflicts(ix, spec) {
        OtherEntryStays(ix, spec, now, key);
        forall sid <- ix.bySession | ix.bySession[sid] == key
          ensures sid in ix'.bySession && ix'.bySession[sid] == key
        {
          if SpecKey(spec) in ix.byKey {
            SameKeySameUser(ix.byKey[SpecKey(spec)], spec);
          }
          OtherAgentStays(ix, spec, now, key, sid);
        }
      } else {
        RefusedChangesNothing(ix, spec, now);
      }
    }
  }

  lemma RefusedChangesNothing(ix: Index, spec: Spec, now: int)
    requires Conflicts(ix, spec)
    ensures Step(ix, Login(spec), now) == ix
  {
  }

  // ---------- what is on record ----------

  /** An accepted login records the agent as it described itself, online; the number of tunnels it had
      before is kept. */
  lemma LoginRecords(ix: Index, spec: Spec, now: int)
    requires !Conflicts(ix, spec)
    ensures var key, ix' := SpecKey(spec), Step(ix, Login(spec), now);
            && key in ix'.byKey
            && var a := ix'.byKey[key];
               && a.user == spec.user && a.agentId == spec.agentId && a.sessionId == spec.sessionId
               && a.generation == spec.generation && a.info == spec.info && a.online && a.disconnectedAt == None
               && a.tunnelCount == if key in ix.byKey then ix.byKey[key].tunnelCount else 0
  {
  }

  /** A release of the current generation keeps an agent that has an id of its own on record, as offline
      since then, and forgets one that has not; all others stay. */
  lemma ReleaseRecords(ix: Index, sid: string, generation: nat, tunnelCount: nat, now: int)
    requires Indexed(ix) && sid in ix.bySession && ix.byKey[ix.bySession[sid]].generation == generation
    ensures var key, ix' := ix.bySession[sid], Step(ix, Leave(sid, generation, tunnelCount), now);
            var a := ix.byKey[key];
            && (a.agentId == "" ==> ix'.byKey == ix.byKey - {key})
            && (a.agentId != "" ==>
                  && ix'.byKey.Keys == ix.byKey.Keys && ix'.byKey == ix.byKey[key := ix'.byKey[key]]
                  && var b := ix'.byKey[key];
                     && b.user == a.user && b.agentId == a.agentId && b.sessionId == sid && b.info == a.info
                     && !b.online && b.generation == 0 && b.tunnelCount == tunnelCount && b.disconnectedAt == Some(now))
            && ix'.bySession == ix.bySession - {sid}
  {
  }
}
