/** When the agent of the current control of a session stays online: exactly if no session without
    an agent id of its own shares its key with another session (agent_registry.rs). */
module AgentOnline {
  import opened Wrappers
  import opened SessionTable
  import opened SessionProtocol
  import opened SessionSafety
  import opened SessionTheorems
  import opened AgentProtocol
  import Agents = AgentRegistry
  import AgentIdentity

  function KeyOfSession(ids: Ids, sid: SessionId): string
    requires sid in ids
  {
    Agents.KeyOf(ids[sid].0, ids[sid].1, sid)
  }

  /** Two sessions are known by one key only if both log in with an agent id of their own. */
  ghost predicate CollisionFree(ids: Ids) {
    forall x <- ids, y <- ids ::
      x != y && x != "" && y != "" && KeyOfSession(ids, x) == KeyOfSession(ids, y) ==> ids[x].1 != "" && ids[y].1 != ""
  }

  /** The agent of session `sid` is online under control `c`. */
  predicate HasAgent(ix: Agents.Index, ids: Ids, sid: SessionId, c: ControlId) {
    && sid in ids && KeyOfSession(ids, sid) in ix.byKey
    && var a := ix.byKey[KeyOfSession(ids, sid)];
       a.online && a.sessionId == sid && a.generation == c
  }

  /** Every control that was acknowledged and has not been removed has its agent online. */
  ghost predicate AgentsOnline(j: Joint, ids: Ids) {
    forall c <- j.s.sh.activated :: c !in j.s.sh.exits ==> HasAgent(j.ix, ids, Sid(j.s.sh, c), c)
  }

  // ---------- without collisions ----------

  /** The control is in the table, has gone online, and its acknowledgement has not failed. */
  predicate Seatable(s: State, c: ControlId) {
    c in s.sh.gateOf && c !in s.sh.exits && LoginIs(s, c, WentOnline)
  }

  ghost predicate AllSeated(j: Joint, ids: Ids) {
    forall c <- j.s.sh.gateOf :: Seatable(j.s, c) ==> HasAgent(j.ix, ids, Sid(j.s.sh, c), c)
  }

  ghost predicate OwedAreOut(j: Joint) {
    forall c <- j.owed :: c in j.s.sh.exits
  }

  ghost predicate OnlineInv(j: Joint, ids: Ids) {
    JointInv(j, ids) && AllSeated(j, ids) && OwedAreOut(j)
  }

  /** A login of another session under another key leaves an agent as it is. */
  lemma OtherSeatKept(ix: Agents.Index, ids: Ids, spec: Agents.Spec, now: int, sid: SessionId, c: ControlId)
    requires HasAgent(ix, ids, sid, c) && sid != spec.sessionId && KeyOfSession(ids, sid) != Agents.SpecKey(spec)
    ensures HasAgent(Agents.Online(ix, spec, now), ids, sid, c)
  {
  }

  /** A release of another generation leaves an agent as it is. */
  lemma SeatSurvivesRelease(ix: Agents.Index, ids: Ids, d: ControlId, dsid: SessionId, count: nat, now: int, sid: SessionId, c: ControlId)
    requires HasAgent(ix, ids, sid, c) && d != c && Agents.Indexed(ix)
    ensures HasAgent(Agents.Released(ix, dsid, d, count, now), ids, sid, c)
  {
  }

  /** A login of another session whose key is the same is refused. */
  lemma SameKeyConflicts(ix: Agents.Index, ids: Ids, spec: Agents.Spec, sid: SessionId, c: ControlId)
    requires CollisionFree(ids) && HasAgent(ix, ids, sid, c) && sid != "" && spec.sessionId != ""
    requires spec.sessionId in ids && ids[spec.sessionId] == (spec.user, spec.agentId)
    requires spec.sessionId != sid && KeyOfSession(ids, sid) == Agents.SpecKey(spec)
    ensures Agents.Conflicts(ix, spec)
  {
    assert KeyOfSession(ids, spec.sessionId) == KeyOfSession(ids, sid);
  }

  /** Two controls that are in the table for one session are one. */
  lemma OneCurrent(s: State, c: ControlId, d: ControlId)
    requires Inv(s) && c in s.sh.gateOf && c !in s.sh.exits && d in s.sh.gateOf && d !in s.sh.exits
    requires Sid(s.sh, c) == Sid(s.sh, d)
    ensures c == d
  {
    assert IsCurrent(s.sh.table, Sid(s.sh, c), c);
  }

  lemma GoesOnlineAtGoOnline(s: State, c: ControlId, lock: Lock, pc: LoginPc, choice: bool)
    requires Login(c) in s.tasks && s.tasks[Login(c)] == Task(lock, InLogin(pc)) && !WentOnline(pc)
    ensures LoginIs(AdvanceLogin(s, c, lock, pc, choice), c, WentOnline) ==> pc.GoOnline? && choice
  {
    match pc
    case SwapPeek => case SwapLock => case SwapCheck => case SwapBackOff =>
    case CloseOld(_) => case AwaitOld => case GoOnline => case Ack => case Activate => case Leave(_) =>
    case Running => case EndSignal => case RmPeek(_) => case RmLock(_) => case RmCheck(_) => case RmDrop(_, _) =>
    case FailSignal(_) => case LoginDone(_, _) =>
  }

  lemma NowOnline(s: State, step: Step, c: ControlId)
    requires Inv(s) && Enabled(s, step) && LoginIs(Apply(s, step), c, WentOnline) && !LoginIs(s, c, WentOnline)
    ensures GoesOnline(s, step) && step.task == Login(c) && step.choice
  {
    StepGrows(s, step);
    hide Inv, AdvanceLogin, KeepsExits;
    if step.Advance? && step.task == Login(c) {
      var task := s.tasks[Login(c)];
      GoesOnlineAtGoOnline(s, c, task.lock, task.pc.login, step.choice);
    } else if step.Advance? {
      AdvanceIsOneTask(s, step.task, step.choice);
      hide Apply;
    }
  }

  /** A control that can be seated after a step could be before, or it has just gone online. */
  lemma SeatableBefore(s: State, step: Step, c: ControlId)
    requires Inv(s) && Enabled(s, step) && Seatable(Apply(s, step), c)
    ensures Seatable(s, c) || (GoesOnline(s, step) && step.task == Login(c) && step.choice)
    ensures !(AckFails(s, step) && step.task == Login(c)) && c !in s.sh.exits
  {
    StepGrows(s, step);
    var s' := Apply(s, step);
    if c in s.sh.exits {
      ExitsStay(s, s', c);
    }
    if AckFails(s, step) && step.task == Login(c) {
      AckFailsIsOffline(s, c, s.tasks[Login(c)].lock);
    }
    if LoginIs(s, c, WentOnline) {
      TaskFacts(s, Login(c));
      hide Inv, Apply;
    } else {
      hide Inv, Apply;
      NowOnline(s, step, c);
    }
  }

  lemma AckFailsIsOffline(s: State, c: ControlId, lock: Lock)
    requires Login(c) in s.tasks && s.tasks[Login(c)] == Task(lock, InLogin(Ack)) && lock.Holding?
    ensures !LoginIs(AdvanceGuarded(s, c, lock, Ack, false), c, WentOnline)
  {
  }

  /** Going online keeps every other seat. */
  lemma OnlineKeepsSeat(j: Joint, ids: Ids, step: Step, info: Agents.Info, now: int, c: ControlId)
    requires OnlineInv(j, ids) && CollisionFree(ids) && CanStep(j, ids, Session(step, info, now))
    requires GoesOnline(j.s, step) && step.choice && step.task != Login(c) && Seatable(j.s, c)
    ensures HasAgent(IndexAfter(j, ids, step, info, now), ids, Sid(j.s.sh, c), c)
  {
    var d := step.task.control;
    var spec := SpecOf(j.s, ids, d, info);
    var sid := Sid(j.s.sh, c);
    assert HasAgent(j.ix, ids, sid, c);
    GuardedIsIn(j.s, d);
    TaskFacts(j.s, Login(d));
    TaskFacts(j.s, Login(c));
    if Sid(j.s.sh, d) == sid {
      OneCurrent(j.s, c, d);
    }
    hide Inv, AllSeated;
    if KeyOfSession(ids, sid) == Agents.SpecKey(spec) {
      SameKeyConflicts(j.ix, ids, spec, sid, c);
    }
    OtherSeatKept(j.ix, ids, spec, now, sid, c);
  }

  /** The login that goes online is seated. */
  lemma OnlineSeats(j: Joint, ids: Ids, step: Step, info: Agents.Info, now: int)
    requires JointInv(j, ids) && CanStep(j, ids, Session(step, info, now)) && GoesOnline(j.s, step) && step.choice
    ensures var c := step.task.control; HasAgent(IndexAfter(j, ids, step, info, now), ids, Sid(j.s.sh, c), c)
  {
    TaskFacts(j.s, step.task);
    hide Inv;
  }

  lemma SessionStaysNamed(s: State, step: Step, c: ControlId)
    requires Inv(s) && Enabled(s, step) && c in s.sh.sidOf
    ensures Sid(Apply(s, step).sh, c) == Sid(s.sh, c)
  {
    StepGrows(s, step);
  }

  lemma SeatedAfter(j: Joint, ids: Ids, step: Step, info: Agents.Info, now: int, c: ControlId)
    requires OnlineInv(j, ids) && CollisionFree(ids) && CanStep(j, ids, Session(step, info, now))
    requires Seatable(Apply(j.s, step), c)
    ensures HasAgent(IndexAfter(j, ids, step, info, now), ids, Sid(Apply(j.s, step).sh, c), c)
  {
    SeatableBefore(j.s, step, c);
    TaskFacts(j.s, Login(c));
    SessionStaysNamed(j.s, step, c);
    hide Inv, Apply, IndexSound, Honest;
    if GoesOnline(j.s, step) && step.choice {
      if step.task == Login(c) {
        OnlineSeats(j, ids, step, info, now);
      } else {
        OnlineKeepsSeat(j, ids, step, info, now, c);
      }
    } else if AckFails(j.s, step) {
      assert Agents.Indexed(j.ix) by { assert IndexSound(j.ix, ids); }
      SeatSurvivesRelease(j.ix, ids, step.task.control, Sid(j.s.sh, step.task.control), 0, now, Sid(j.s.sh, c), c);
    }
  }

  lemma OwedStayOut(j: Joint, step: Step)
    requires Inv(j.s) && OwedAreOut(j) && Enabled(j.s, step)
    ensures forall c <- OwedAfter(j.s, j.owed, step) :: c in Apply(j.s, step).sh.exits
  {
    StepGrows(j.s, step);
    if step.Advance? {
      TaskFacts(j.s, step.task);
    }
    hide Inv, Apply;
    forall c <- OwedAfter(j.s, j.owed, step) ensures c in Apply(j.s, step).sh.exits {
      ExitsStay(j.s, Apply(j.s, step), c);
    }
  }

  lemma OnlineStepKept(j: Joint, ids: Ids, step: JointStep)
    requires OnlineInv(j, ids) && CollisionFree(ids) && CanStep(j, ids, step)
    ensures OnlineInv(Do(j, ids, step), ids)
  {
    JointStepKept(j, ids, step);
    var j' := Do(j, ids, step);
    hide Inv, HasAgent, Honest;
    match step
    case Session(inner, info, now) =>
      OwedStayOut(j, inner);
      forall c <- j'.s.sh.gateOf | Seatable(j'.s, c) ensures HasAgent(j'.ix, ids, Sid(j'.s.sh, c), c) {
        hide Apply;
        SeatedAfter(j, ids, inner, info, now, c);
      }
    case Release(d, count, now) =>
      forall c <- j'.s.sh.gateOf | Seatable(j'.s, c) ensures HasAgent(j'.ix, ids, Sid(j'.s.sh, c), c) {
        assert Seatable(j.s, c) && d != c;
        SeatSurvivesRelease(j.ix, ids, d, Sid(j.s.sh, d), count, now, Sid(j.s.sh, c), c);
      }
  }

  lemma {:induction false} OnlineRunKept(j: Joint, ids: Ids, steps: seq<JointStep>)
    requires OnlineInv(j, ids) && CollisionFree(ids) && CanRun(j, ids, steps)
    ensures OnlineInv(Outcome(j, ids, steps), ids)
    decreases |steps|
  {
    if steps != [] {
      hide OnlineInv;
      OnlineStepKept(j, ids, steps[0]);
      OnlineRunKept(Do(j, ids, steps[0]), ids, steps[1..]);
    }
  }

  /** Controls that were acknowledged are among those that can be seated. */
  lemma SeatedAreOnline(j: Joint, ids: Ids)
    requires OnlineInv(j, ids)
    ensures AgentsOnline(j, ids)
  {
    hide HasAgent;
    forall c <- j.s.sh.activated | c !in j.s.sh.exits ensures HasAgent(j.ix, ids, Sid(j.s.sh, c), c) {
      ActivatedIsSeatable(j.s, c);
    }
  }

  lemma ActivatedIsSeatable(s: State, c: ControlId)
    requires Inv(s) && c in s.sh.activated && c !in s.sh.exits
    ensures c in s.sh.gateOf && Seatable(s, c)
  {
    assert c in s.sh.gateOf && c in s.sh.sidOf;
    assert Login(c) in s.tasks;
    TaskFacts(s, Login(c));
    hide Inv;
    AckedWentOnline(s.tasks[Login(c)].pc.login);
  }

  lemma AckedWentOnline(pc: LoginPc)
    ensures Acked(pc) ==> WentOnline(pc)
  {
  }

  // ---------- with a collision ----------

  lemma JointRunsFirst(j: Joint, ids: Ids, step: JointStep, rest: seq<JointStep>)
    requires CanStep(j, ids, step) && CanRun(Do(j, ids, step), ids, rest)
    ensures CanRun(j, ids, [step] + rest) && Outcome(j, ids, [step] + rest) == Outcome(Do(j, ids, step), ids, rest)
  {
    assert ([step] + rest)[1..] == rest;
  }

  lemma {:induction false} JointRunsAppend(j: Joint, ids: Ids, a: seq<JointStep>, b: seq<JointStep>)
    requires CanRun(j, ids, a) && CanRun(Outcome(j, ids, a), ids, b)
    ensures CanRun(j, ids, a + b) && Outcome(j, ids, a + b) == Outcome(Outcome(j, ids, a), ids, b)
    decreases |a|
  {
    if a == [] {
      assert a + b == b;
    } else {
      JointRunsAppend(Do(j, ids, a[0]), ids, a[1..], b);
      assert (a + b)[0] == a[0] && (a + b)[1..] == a[1..] + b;
    }
  }

  /** A new login's state after it has put itself into the table, with a gate of its own. */
  function Seating(s: State, sid: SessionId, pc: LoginPc): State {
    var c, g := s.nextGeneration, s.nextGate;
    State(
      Shared(s.sh.table[sid := Entry(c, g)], s.sh.sidOf[c := sid], s.sh.closed, s.sh.activated, s.sh.gateOf[c := g], s.sh.exits),
      s.holder[g := Login(c)],
      s.tasks[Login(c) := Task(Holding(g), InLogin(pc))],
      c + 1, g + 1)
  }

  function Move(c: ControlId, info: Agents.Info): JointStep {
    Session(Advance(Login(c), true), info, 0)
  }

  /** Before that: it has begun, has a gate to wait for, and then holds it. */
  function Begun(s: State, sid: SessionId): State {
    var c := s.nextGeneration;
    s.(sh := s.sh.(sidOf := s.sh.sidOf[c := sid]), tasks := s.tasks[Login(c) := Task(Free, InLogin(SwapPeek))], nextGeneration := c + 1)
  }

  function Queued(s: State, sid: SessionId): State {
    Begun(s, sid).(tasks := s.tasks[Login(s.nextGeneration) := Task(Waiting(s.nextGate), InLogin(SwapLock))], nextGate := s.nextGate + 1)
  }

  function Entered(s: State, sid: SessionId): State {
    Queued(s, sid).(
      holder := s.holder[s.nextGate := Login(s.nextGeneration)],
      tasks := s.tasks[Login(s.nextGeneration) := Task(Holding(s.nextGate), InLogin(SwapCheck))])
  }

  lemma LoginBegins(s: State, sid: SessionId)
    ensures Apply(s, StartLogin(sid)) == Begun(s, sid)
  {
  }

  lemma LoginQueues(s: State, sid: SessionId)
    requires sid !in s.sh.table
    ensures var step := Advance(Login(s.nextGeneration), true);
            Enabled(Begun(s, sid), step) && Apply(Begun(s, sid), step) == Queued(s, sid)
  {
    var b := Begun(s, sid);
    assert Apply(b, Advance(Login(s.nextGeneration), true)) == AdvanceSwap(b, s.nextGeneration, Free, SwapPeek);
    assert Sid(b.sh, s.nextGeneration) == sid && Get(b.sh.table, sid).None?;
  }

  lemma LoginEnters(s: State, sid: SessionId)
    requires s.nextGate !in s.holder
    ensures var step := Advance(Login(s.nextGeneration), true);
            Enabled(Queued(s, sid), step) && Apply(Queued(s, sid), step) == Entered(s, sid)
  {
    var q := Queued(s, sid);
    assert Apply(q, Advance(Login(s.nextGeneration), true)) == AdvanceSwap(q, s.nextGeneration, Waiting(s.nextGate), SwapLock);
  }

  lemma LoginInstalls(s: State, sid: SessionId)
    requires sid !in s.sh.table
    ensures var step := Advance(Login(s.nextGeneration), true);
            Enabled(Entered(s, sid), step) && Apply(Entered(s, sid), step) == Seating(s, sid, GoOnline)
  {
    var c, g, e := s.nextGeneration, s.nextGate, Entered(s, sid);
    assert Apply(e, Advance(Login(c), true)) == AdvanceSwap(e, c, Holding(g), SwapCheck);
    assert Sid(e.sh, c) == sid && Previous(e.sh.table, sid).None?;
    assert AdvanceSwap(e, c, Holding(g), SwapCheck) == InstallStep(e, c, sid, g);
    assert InstallStep(e, c, sid, g).tasks == Seating(s, sid, GoOnline).tasks;
  }

  /** A login of a session that is not in the table comes to the point of going online. */
  lemma LoginArrives(j: Joint, ids: Ids, sid: SessionId, info: Agents.Info) returns (steps: seq<JointStep>)
    requires sid != "" && sid in ids && sid !in j.s.sh.table && j.s.nextGate !in j.s.holder
    ensures CanRun(j, ids, steps) && Outcome(j, ids, steps) == Joint(Seating(j.s, sid, GoOnline), j.ix, j.owed)
  {
    var s := j.s;
    LoginBegins(s, sid);
    LoginQueues(s, sid);
    LoginEnters(s, sid);
    LoginInstalls(s, sid);
    var step := Move(s.nextGeneration, info);
    QuietMove(Joint(Entered(s, sid), j.ix, j.owed), ids, s.nextGeneration, info);
    QuietMove(Joint(Queued(s, sid), j.ix, j.owed), ids, s.nextGeneration, info);
    QuietMove(Joint(Begun(s, sid), j.ix, j.owed), ids, s.nextGeneration, info);
    hide Apply, Enabled, Entered, Queued, Begun, Seating;
    JointRunsFirst(Joint(Entered(s, sid), j.ix, j.owed), ids, step, []);
    JointRunsFirst(Joint(Queued(s, sid), j.ix, j.owed), ids, step, [step] + []);
    JointRunsFirst(Joint(Begun(s, sid), j.ix, j.owed), ids, step, [step] + ([step] + []));
    var all := [step] + ([step] + ([step] + []));
    assert CanStep(j, ids, Session(StartLogin(sid), info, 0)) by { assert Enabled(s, StartLogin(sid)); }
    JointRunsFirst(j, ids, Session(StartLogin(sid), info, 0), all);
    steps := [Session(StartLogin(sid), info, 0)] + all;
  }

  /** A step of a login that does not concern the index. */
  lemma QuietMove(j: Joint, ids: Ids, c: ControlId, info: Agents.Info)
    requires Enabled(j.s, Advance(Login(c), true))
    requires j.s.tasks[Login(c)].pc.InLogin? && !j.s.tasks[Login(c)].pc.login.GoOnline? && !j.s.tasks[Login(c)].pc.login.RmDrop?
    ensures CanStep(j, ids, Move(c, info))
    ensures Do(j, ids, Move(c, info)) == Joint(Apply(j.s, Advance(Login(c), true)), j.ix, j.owed)
  {
    hide Apply;
  }

  function SpecFor(ids: Ids, sid: SessionId, c: ControlId, info: Agents.Info): Agents.Spec
    requires sid in ids
  {
    Agents.Spec(ids[sid].0, ids[sid].1, sid, c, info)
  }

  lemma LoginGoesOnline(j: Joint, ids: Ids, sid: SessionId, info: Agents.Info)
    requires sid in ids && !Agents.Conflicts(j.ix, SpecFor(ids, sid, j.s.nextGeneration, info))
    ensures var c := j.s.nextGeneration;
            var arrived := Joint(Seating(j.s, sid, GoOnline), j.ix, j.owed);
            && CanStep(arrived, ids, Move(c, info))
            && Do(arrived, ids, Move(c, info))
               == Joint(Seating(j.s, sid, Ack), Agents.Online(j.ix, SpecFor(ids, sid, c, info), 0), j.owed)
  {
    var c := j.s.nextGeneration;
    var s := Seating(j.s, sid, GoOnline);
    assert SpecOf(s, ids, c, info) == SpecFor(ids, sid, c, info);
    assert Apply(s, Advance(Login(c), true)) == AdvanceGuarded(s, c, Holding(j.s.nextGate), GoOnline, true);
    assert s.tasks[Login(c) := Task(Holding(j.s.nextGate), InLogin(Ack))] == Seating(j.s, sid, Ack).tasks;
  }

  /** The login is acknowledged and activated. */
  function Active(s: State, sid: SessionId): State {
    var acked := Seating(s, sid, Leave(true));
    acked.(sh := acked.sh.(activated := acked.sh.activated + {s.nextGeneration}))
  }

  lemma LoginIsAcked(s: State, sid: SessionId)
    ensures var step := Advance(Login(s.nextGeneration), true);
            Enabled(Seating(s, sid, Ack), step) && Apply(Seating(s, sid, Ack), step) == Seating(s, sid, Activate)
  {
    var c, lock := s.nextGeneration, Holding(s.nextGate);
    var a := Seating(s, sid, Ack);
    assert Apply(a, Advance(Login(c), true)) == AdvanceGuarded(a, c, lock, Ack, true);
    assert a.tasks[Login(c) := Task(lock, InLogin(Activate))] == Seating(s, sid, Activate).tasks;
  }

  lemma LoginIsActivated(s: State, sid: SessionId)
    ensures var step := Advance(Login(s.nextGeneration), true);
            Enabled(Seating(s, sid, Activate), step) && Apply(Seating(s, sid, Activate), step) == Active(s, sid)
  {
    var c, lock := s.nextGeneration, Holding(s.nextGate);
    var a := Seating(s, sid, Activate);
    assert Apply(a, Advance(Login(c), true)) == AdvanceGuarded(a, c, lock, Activate, true);
    assert a.tasks[Login(c) := Task(lock, InLogin(Leave(true)))] == Active(s, sid).tasks;
  }

  lemma LoginBecomesActive(j: Joint, ids: Ids, sid: SessionId, info: Agents.Info) returns (steps: seq<JointStep>)
    requires sid in ids && !Agents.Conflicts(j.ix, SpecFor(ids, sid, j.s.nextGeneration, info))
    ensures var arrived := Joint(Seating(j.s, sid, GoOnline), j.ix, j.owed);
            && CanRun(arrived, ids, steps)
            && Outcome(arrived, ids, steps)
               == Joint(Active(j.s, sid), Agents.Online(j.ix, SpecFor(ids, sid, j.s.nextGeneration, info), 0), j.owed)
  {
    var c := j.s.nextGeneration;
    var ix := Agents.Online(j.ix, SpecFor(ids, sid, c, info), 0);
    var step := Move(c, info);
    LoginGoesOnline(j, ids, sid, info);
    LoginIsAcked(j.s, sid);
    LoginIsActivated(j.s, sid);
    QuietMove(Joint(Seating(j.s, sid, Ack), ix, j.owed), ids, c, info);
    QuietMove(Joint(Seating(j.s, sid, Activate), ix, j.owed), ids, c, info);
    hide Apply, Enabled, Seating, Active, CanStep, Do;
    JointRunsFirst(Joint(Seating(j.s, sid, Activate), ix, j.owed), ids, step, []);
    JointRunsFirst(Joint(Seating(j.s, sid, Ack), ix, j.owed), ids, step, [step] + []);
    JointRunsFirst(Joint(Seating(j.s, sid, GoOnline), j.ix, j.owed), ids, step, [step] + ([step] + []));
    steps := [step] + ([step] + ([step] + []));
  }

  /** A session without an agent id logs in with the key of one that is online: the other's agent
      is gone, although its control is current and acknowledged. */
  lemma CollisionTakesOver(ids: Ids, x: SessionId, y: SessionId, info: Agents.Info) returns (steps: seq<JointStep>)
    requires x in ids && y in ids && x != y && x != "" && y != ""
    requires KeyOfSession(ids, x) == KeyOfSession(ids, y) && ids[x].1 == ""
    ensures CanRun(Begin, ids, steps) && !AgentsOnline(Outcome(Begin, ids, steps), ids)
  {
    var arrive := LoginArrives(Begin, ids, y, info);
    var activate := LoginBecomesActive(Begin, ids, y, info);
    JointRunsAppend(Begin, ids, arrive, activate);
    var ix := Agents.Online(Begin.ix, SpecFor(ids, y, 1, info), 0);
    var one := Joint(Active(Start, y), ix, {});
    var come := LoginArrives(one, ids, x, info);
    LoginGoesOnline(one, ids, x, info);
    var arrived := Joint(Seating(one.s, x, GoOnline), ix, {});
    JointRunsFirst(arrived, ids, Move(2, info), []);
    JointRunsAppend(one, ids, come, [Move(2, info)] + []);
    JointRunsAppend(Begin, ids, arrive + activate, come + ([Move(2, info)] + []));
    steps := (arrive + activate) + (come + ([Move(2, info)] + []));
    var s := Seating(one.s, x, Ack);
    assert 1 in s.sh.activated && 1 !in s.sh.exits && Sid(s.sh, 1) == y;
    assert !HasAgent(Agents.Online(ix, SpecFor(ids, x, 2, info), 0), ids, y, 1);
  }

  /** Over all runs every control that was acknowledged and has not been removed has its agent
      online under its generation, exactly if no session without an agent id shares its key. */
  lemma AgentsStayOnlineIff(ids: Ids)
    ensures CollisionFree(ids) <==>
              forall steps :: CanRun(Begin, ids, steps) ==> AgentsOnline(Outcome(Begin, ids, steps), ids)
  {
    if CollisionFree(ids) {
      BeginKept(ids);
      forall steps | CanRun(Begin, ids, steps) ensures AgentsOnline(Outcome(Begin, ids, steps), ids) {
        OnlineRunKept(Begin, ids, steps);
        SeatedAreOnline(Outcome(Begin, ids, steps), ids);
      }
    } else {
      var x, y :| x in ids && y in ids && x != y && x != "" && y != ""
                  && KeyOfSession(ids, x) == KeyOfSession(ids, y) && !(ids[x].1 != "" && ids[y].1 != "");
      var info := Agents.Info("", "", "", "", "");
      if ids[x].1 == "" {
        var _ := CollisionTakesOver(ids, x, y, info);
      } else {
        var _ := CollisionTakesOver(ids, y, x, info);
      }
    }
  }

  /** For users without a dot, in terms of users and ids: no session without an agent id is itself the
      agent id of another session of its user. */
  lemma CollisionFreeIff(ids: Ids)
    requires forall x <- ids :: ids[x].0 != "" && AgentIdentity.DotFree(ids[x].0)
    ensures CollisionFree(ids)
            <==> forall x <- ids, y <- ids :: x != "" && y != "" && ids[x].1 == "" && ids[x].0 == ids[y].0 ==> ids[y].1 != x
  {
    forall x <- ids, y <- ids | x != "" && y != ""
      ensures KeyOfSession(ids, x) == KeyOfSession(ids, y) <==>
              ids[x].0 == ids[y].0 && (if ids[x].1 != "" then ids[x].1 else x) == (if ids[y].1 != "" then ids[y].1 else y)
    {
      AgentIdentity.KeysAreEqualIff(ids[x].0, if ids[x].1 != "" then ids[x].1 else x, ids[y].0, if ids[y].1 != "" then ids[y].1 else y);
    }
    hide KeyOfSession;
    if CollisionFree(ids) {
      forall x <- ids, y <- ids | x != "" && y != "" && ids[x].1 == "" && ids[x].0 == ids[y].0 ensures ids[y].1 != x {
        assert KeyOfSession(ids, x) == KeyOfSession(ids, y) <==> x == if ids[y].1 != "" then ids[y].1 else y;
      }
    }
  }
}
