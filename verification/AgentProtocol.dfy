/** The agent index inside the session protocol (session_registry.rs, service/mod.rs): a login
    goes online under its gate, and an agent is released when its acknowledgement failed, after
    a kick, and after the clean-up at the end of a connection - the last two outside the gate,
    at any later moment. Each session id logs in with one user and agent id. */
module AgentProtocol {
  import opened Wrappers
  import opened SessionTable
  import opened SessionProtocol
  import opened SessionSafety
  import opened SessionTheorems
  import Agents = AgentRegistry

  type Ids = map<SessionId, (string, string)>

  /** `owed` are the controls whose winner of the removal still has to release their agent. */
  datatype Joint = Joint(s: State, ix: Agents.Index, owed: set<ControlId>)

  datatype JointStep =
    | Session(step: Step, info: Agents.Info, now: int)
    | Release(control: ControlId, tunnelCount: nat, now: int)

  const Begin := Joint(Start, Agents.Index(map[], map[]), {})

  function SpecOf(s: State, ids: Ids, c: ControlId, info: Agents.Info): Agents.Spec {
    var sid := Sid(s.sh, c);
    var (user, agentId) := if sid in ids then ids[sid] else ("", "");
    Agents.Spec(user, agentId, sid, c, info)
  }

  /** The step is the login's call of try_online. */
  predicate GoesOnline(s: State, step: Step) {
    step.Advance? && step.task.Login? && step.task in s.tasks && s.tasks[step.task].pc == InLogin(GoOnline)
  }

  /** The step is a failed acknowledgement, which releases the agent. */
  predicate AckFails(s: State, step: Step) {
    step.Advance? && step.task.Login? && step.task in s.tasks && s.tasks[step.task].pc == InLogin(Ack) && !step.choice
  }

  /** A session id is never empty, and the index decides whether a login goes online. */
  ghost predicate CanStep(j: Joint, ids: Ids, step: JointStep) {
    match step
    case Session(step, info, _) =>
      && Enabled(j.s, step)
      && (step.StartLogin? ==> step.sid != "" && step.sid in ids)
      && (GoesOnline(j.s, step) ==> (step.choice <==> !Agents.Conflicts(j.ix, SpecOf(j.s, ids, step.task.control, info))))
    case Release(c, _, _) => c in j.owed
  }

  function IndexAfter(j: Joint, ids: Ids, step: Step, info: Agents.Info, now: int): Agents.Index {
    if GoesOnline(j.s, step) && step.choice then Agents.Online(j.ix, SpecOf(j.s, ids, step.task.control, info), now)
    else if AckFails(j.s, step) then Agents.Released(j.ix, Sid(j.s.sh, step.task.control), step.task.control, 0, now)
    else j.ix
  }

  /** The winner of a removal, once it has let go of the gate, has to release the agent. */
  function OwedAfter(s: State, owed: set<ControlId>, step: Step): set<ControlId> {
    if !step.Advance? || step.task !in s.tasks then owed
    else
      match (step.task, s.tasks[step.task].pc)
      case (Login(c), InLogin(pc)) => if pc == RmDrop(true, true) then owed + {c} else owed
      case (_, InKick(_, c, pc)) => if pc == KickDrop(true) then owed + {c} else owed
      case _ => owed
  }

  ghost function Do(j: Joint, ids: Ids, step: JointStep): Joint
    requires CanStep(j, ids, step)
  {
    match step
    case Session(step, info, now) => Joint(Apply(j.s, step), IndexAfter(j, ids, step, info, now), OwedAfter(j.s, j.owed, step))
    case Release(c, count, now) => j.(ix := Agents.Released(j.ix, Sid(j.s.sh, c), c, count, now), owed := j.owed - {c})
  }

  ghost predicate CanRun(j: Joint, ids: Ids, steps: seq<JointStep>)
    decreases |steps|
  {
    steps == [] || (CanStep(j, ids, steps[0]) && CanRun(Do(j, ids, steps[0]), ids, steps[1..]))
  }

  ghost function Outcome(j: Joint, ids: Ids, steps: seq<JointStep>): Joint
    requires CanRun(j, ids, steps)
    decreases |steps|
  {
    if steps == [] then j else Outcome(Do(j, ids, steps[0]), ids, steps[1..])
  }

  // ---------- why an agent may be online ----------

  /** The login has the gate and has not called try_online yet. */
  predicate BeforeOnline(pc: LoginPc) {
    pc.CloseOld? || pc.AwaitOld? || pc.GoOnline?
  }

  /** The login has gone online, and its acknowledgement has not failed. */
  predicate WentOnline(pc: LoginPc) {
    && Installed(pc) && !BeforeOnline(pc) && !pc.FailSignal?
    && (pc.Leave? || pc.RmPeek? || pc.RmLock? || pc.RmCheck? || pc.RmDrop? || pc.LoginDone? ==> pc.acked)
  }

  predicate WonCleaningUp(pc: LoginPc) {
    pc == RmDrop(true, true)
  }

  predicate LoginIs(s: State, c: ControlId, at: LoginPc -> bool) {
    Login(c) in s.tasks && s.tasks[Login(c)].pc.InLogin? && at(s.tasks[Login(c)].pc.login)
  }

  /** The control was replaced by a login of its session that is about to go online. */
  predicate BeingReplaced(s: State, c: ControlId) {
    && c in s.sh.exits && s.sh.exits[c].ReplacedBy?
    && Sid(s.sh, s.sh.exits[c].next) == Sid(s.sh, c)
    && LoginIs(s, s.sh.exits[c].next, BeforeOnline)
  }

  /** Whoever removed the control still has to release its agent. */
  predicate ReleasePending(s: State, owed: set<ControlId>, c: ControlId) {
    && c in s.sh.exits && !s.sh.exits[c].ReplacedBy?
    && (|| c in owed
        || (s.sh.exits[c].CleanedUp? && LoginIs(s, c, WonCleaningUp))
        || (s.sh.exits[c].KickedBy? && Kick(s.sh.exits[c].k) in s.tasks && s.tasks[Kick(s.sh.exits[c].k)].pc.InKick?
            && s.tasks[Kick(s.sh.exits[c].k)].pc.target == c && s.tasks[Kick(s.sh.exits[c].k)].pc.kick == KickDrop(true)))
  }

  predicate Excused(s: State, owed: set<ControlId>, c: ControlId) {
    c in s.sh.gateOf && (c in s.sh.exits ==> BeingReplaced(s, c) || ReleasePending(s, owed, c))
  }

  predicate HonestEntry(s: State, owed: set<ControlId>, a: Agents.Agent) {
    a.sessionId == Sid(s.sh, a.generation) && LoginIs(s, a.generation, WentOnline) && Excused(s, owed, a.generation)
  }

  ghost predicate Honest(j: Joint) {
    forall key <- j.ix.byKey :: j.ix.byKey[key].online ==> HonestEntry(j.s, j.owed, j.ix.byKey[key])
  }

  ghost predicate IndexSound(ix: Agents.Index, ids: Ids) {
    Agents.Indexed(ix) && Agents.EveryOnlineIndexed(ix) && Agents.KeyedBySession(ix, ids)
  }

  ghost predicate SessionsNamed(s: State, ids: Ids) {
    forall c <- s.sh.sidOf :: s.sh.sidOf[c] != "" && s.sh.sidOf[c] in ids
  }

  ghost predicate JointInv(j: Joint, ids: Ids) {
    Inv(j.s) && IndexSound(j.ix, ids) && SessionsNamed(j.s, ids) && Honest(j)
  }

  // ---------- what one step of a session touches ----------

  /** What holds after any step: tasks, sessions and history only grow, but for the task that moves. */
  ghost predicate Grows(s: State, s': State, step: Step) {
    && (forall t <- s.tasks :: t in s'.tasks && (s'.tasks[t] == s.tasks[t] || (step.Advance? && step.task == t)))
    && (forall c <- s.sh.sidOf :: c in s'.sh.sidOf && s'.sh.sidOf[c] == s.sh.sidOf[c])
    && s.sh.gateOf.Keys <= s'.sh.gateOf.Keys
    && KeepsExits(s, s')
  }

  lemma StepGrows(s: State, step: Step)
    requires Inv(s) && Enabled(s, step)
    ensures Grows(s, Apply(s, step), step)
  {
    StepTouches(s, step);
    match step
    case Advance(t, choice) => AdvanceIsOneTask(s, t, choice);
    case StartLogin(sid) => GenerationIsFresh(s);
    case _ =>
  }

  lemma NamedKept(s: State, step: Step, ids: Ids)
    requires Inv(s) && SessionsNamed(s, ids) && Enabled(s, step) && (step.StartLogin? ==> step.sid != "" && step.sid in ids)
    ensures SessionsNamed(Apply(s, step), ids)
  {
    if step.Advance? {
      hide Inv, Apply;
      AdvanceIsOneTask(s, step.task, step.choice);
    }
  }

  // ---------- the excuses of a control that is out ----------

  lemma BeforeOnlineGoesOn(s: State, d: ControlId, lock: Lock, pc: LoginPc, choice: bool)
    requires Login(d) in s.tasks && s.tasks[Login(d)] == Task(lock, InLogin(pc)) && BeforeOnline(pc) && !pc.GoOnline?
    ensures LoginIs(AdvanceGuarded(s, d, lock, pc, choice), d, BeforeOnline)
  {
  }

  lemma StillBeingReplaced(s: State, step: Step, c: ControlId)
    requires Inv(s) && Enabled(s, step) && c in s.sh.sidOf && BeingReplaced(s, c)
    requires !(GoesOnline(s, step) && s.sh.exits[c] == ReplacedBy(step.task.control))
    ensures BeingReplaced(Apply(s, step), c)
  {
    StepGrows(s, step);
    var d := s.sh.exits[c].next;
    assert d in s.sh.sidOf by {
      TaskFacts(s, Login(d));
    }
    hide Inv, AdvanceGuarded, KeepsExits;
    assert KeepsExits(s, Apply(s, step));
    ExitsStay(s, Apply(s, step), c);
    if step.Advance? && step.task == Login(d) {
      BeforeOnlineGoesOn(s, d, s.tasks[Login(d)].lock, s.tasks[Login(d)].pc.login, step.choice);
    }
  }

  lemma ExitsStay(s: State, s': State, c: ControlId)
    requires KeepsExits(s, s') && c in s.sh.exits
    ensures c in s'.sh.exits && s'.sh.exits[c] == s.sh.exits[c]
  {
  }

  lemma StillPending(s: State, owed: set<ControlId>, step: Step, c: ControlId)
    requires Inv(s) && Enabled(s, step) && ReleasePending(s, owed, c)
    ensures ReleasePending(Apply(s, step), OwedAfter(s, owed, step), c)
  {
    StepGrows(s, step);
    ExitsStay(s, Apply(s, step), c);
    hide Inv, Apply, KeepsExits;
  }

  lemma OnlyInstallTakesOut(s: State, d: ControlId, lock: Lock, pc: LoginPc, c: ControlId)
    requires c !in s.sh.exits && c in AdvanceSwap(s, d, lock, pc).sh.exits
    ensures pc.SwapCheck? && lock.Holding? && Previous(s.sh.table, Sid(s.sh, d)) == Some(c)
    ensures AdvanceSwap(s, d, lock, pc) == InstallStep(s, d, Sid(s.sh, d), lock.gate)
  {
  }

  lemma InstallReplaces(s: State, d: ControlId, sid: SessionId, g: GateId, c: ControlId)
    requires Previous(s.sh.table, sid) == Some(c) && Sid(s.sh, c) == sid && Sid(s.sh, d) == sid
    ensures BeingReplaced(InstallStep(s, d, sid, g), c)
  {
  }

  lemma EntriesKeepTheirSession(sh: Shared, sid: SessionId, c: ControlId)
    requires TableAgrees(sh) && Previous(sh.table, sid) == Some(c)
    ensures Sid(sh, c) == sid
  {
  }

  /** A swap takes the current control of the session out, and is about to go online. */
  lemma SwappedOut(s: State, d: ControlId, c: ControlId)
    requires Inv(s) && Enabled(s, Advance(Login(d), true)) && s.tasks[Login(d)].pc.InLogin? && c !in s.sh.exits
    requires c in AdvanceSwap(s, d, s.tasks[Login(d)].lock, s.tasks[Login(d)].pc.login).sh.exits
    ensures BeingReplaced(AdvanceSwap(s, d, s.tasks[Login(d)].lock, s.tasks[Login(d)].pc.login), c)
  {
    TaskFacts(s, Login(d));
    hide Inv, AdvanceSwap, BeingReplaced, InstallStep, TableAgrees, Knows, LockFits;
    var task := s.tasks[Login(d)];
    OnlyInstallTakesOut(s, d, task.lock, task.pc.login, c);
    EntriesKeepTheirSession(s.sh, Sid(s.sh, d), c);
    InstallReplaces(s, d, Sid(s.sh, d), task.lock.gate, c);
  }

  /** The clean-up takes out only the login's own control. */
  lemma CleanedOut(s: State, d: ControlId, c: ControlId)
    requires Inv(s) && Enabled(s, Advance(Login(d), true)) && s.tasks[Login(d)].pc.InLogin? && c !in s.sh.exits
    requires LoginIs(s, c, WentOnline)
    requires c in AdvanceEnding(s, d, s.tasks[Login(d)].lock, s.tasks[Login(d)].pc.login).sh.exits
    ensures ReleasePending(AdvanceEnding(s, d, s.tasks[Login(d)].lock, s.tasks[Login(d)].pc.login), {}, c)
  {
    hide Inv;
  }

  lemma KickedOut(s: State, t: TaskId, c: ControlId)
    requires Enabled(s, Advance(t, true)) && s.tasks[t].pc.InKick? && c !in s.sh.exits
    requires var InKick(sid, target, pc) := s.tasks[t].pc; c in AdvanceKick(s, t, sid, target, s.tasks[t].lock, pc).sh.exits
    ensures var InKick(sid, target, pc) := s.tasks[t].pc;
            ReleasePending(AdvanceKick(s, t, sid, target, s.tasks[t].lock, pc), {}, c)
  {
  }

  lemma LookupKeepsShared(s: State, t: TaskId, sid: SessionId, c: ControlId, lock: Lock, pc: LookupPc)
    ensures AdvanceLookup(s, t, sid, c, lock, pc).sh == s.sh
  {
  }

  lemma MoreOwed(s: State, owed: set<ControlId>, more: set<ControlId>, c: ControlId)
    requires owed <= more && ReleasePending(s, owed, c)
    ensures ReleasePending(s, more, c)
  {
  }

  /** A control that this step takes out of the table is excused. */
  lemma JustOut(s: State, owed: set<ControlId>, step: Step, c: ControlId)
    requires Inv(s) && Enabled(s, step) && c in s.sh.gateOf && c !in s.sh.exits && LoginIs(s, c, WentOnline)
    requires c in Apply(s, step).sh.exits
    ensures BeingReplaced(Apply(s, step), c) || ReleasePending(Apply(s, step), owed, c)
  {
    hide AdvanceSwap, AdvanceGuarded, AdvanceEnding, AdvanceKick, AdvanceLookup, BeingReplaced, ReleasePending, Inv;
    var task := s.tasks[step.task];
    match task.pc
    case InLogin(pc) =>
      match step.task {
        case Login(d) =>
          if !Installed(pc) {
            SwappedOut(s, d, c);
          } else if Guarded(pc) {
            GuardedTouches(s, d, task.lock, pc, step.choice);
          } else {
            CleanedOut(s, d, c);
            MoreOwed(Apply(s, step), {}, owed, c);
          }
        case _ =>
      }
    case InKick(_, _, _) =>
      KickedOut(s, step.task, c);
      MoreOwed(Apply(s, step), {}, owed, c);
    case InLookup(sid, target, pc) =>
      LookupKeepsShared(s, step.task, sid, target, task.lock, pc);
  }

  lemma ExcusedKept(s: State, owed: set<ControlId>, step: Step, c: ControlId)
    requires Inv(s) && Enabled(s, step) && c in s.sh.sidOf && Excused(s, owed, c) && LoginIs(s, c, WentOnline)
    requires !(GoesOnline(s, step) && c in s.sh.exits && s.sh.exits[c] == ReplacedBy(step.task.control))
    ensures Excused(Apply(s, step), OwedAfter(s, owed, step), c)
  {
    StepGrows(s, step);
    hide Inv, Apply, BeingReplaced, ReleasePending;
    if c in s.sh.exits {
      if BeingReplaced(s, c) {
        StillBeingReplaced(s, step, c);
      } else {
        StillPending(s, owed, step, c);
      }
    } else if c in Apply(s, step).sh.exits {
      JustOut(s, owed, step, c);
      if ReleasePending(Apply(s, step), owed, c) {
        MoreOwed(Apply(s, step), owed, OwedAfter(s, owed, step), c);
      }
    }
  }

  lemma GuardedStaysOnline(s: State, c: ControlId, lock: Lock, pc: LoginPc, choice: bool)
    requires Login(c) in s.tasks && s.tasks[Login(c)] == Task(lock, InLogin(pc)) && WentOnline(pc) && !(pc.Ack? && !choice)
    ensures LoginIs(AdvanceGuarded(s, c, lock, pc, choice), c, WentOnline)
  {
  }

  lemma EndingStaysOnline(s: State, c: ControlId, lock: Lock, pc: LoginPc)
    requires Login(c) in s.tasks && s.tasks[Login(c)] == Task(lock, InLogin(pc)) && WentOnline(pc)
    ensures LoginIs(AdvanceEnding(s, c, lock, pc), c, WentOnline)
  {
  }

  lemma WentOnlineKept(s: State, step: Step, c: ControlId)
    requires Inv(s) && Enabled(s, step) && LoginIs(s, c, WentOnline)
    requires !(AckFails(s, step) && step.task == Login(c))
    ensures LoginIs(Apply(s, step), c, WentOnline)
  {
    StepGrows(s, step);
    hide Inv, AdvanceGuarded, AdvanceEnding, KeepsExits;
    if step.Advance? && step.task == Login(c) {
      var task := s.tasks[Login(c)];
      GuardedStaysOnline(s, c, task.lock, task.pc.login, step.choice);
      EndingStaysOnline(s, c, task.lock, task.pc.login);
    }
  }

  /** An entry stays honest over a step that does not release it or go online for it. */
  lemma HonestKept(s: State, owed: set<ControlId>, step: Step, a: Agents.Agent)
    requires Inv(s) && Enabled(s, step) && HonestEntry(s, owed, a)
    requires !(AckFails(s, step) && step.task == Login(a.generation))
    requires !(GoesOnline(s, step) && Sid(s.sh, step.task.control) == a.sessionId)
    ensures HonestEntry(Apply(s, step), OwedAfter(s, owed, step), a)
  {
    var c := a.generation;
    TaskFacts(s, Login(c));
    StepGrows(s, step);
    hide Apply, Excused, KeepsExits;
    if GoesOnline(s, step) && c in s.sh.exits && s.sh.exits[c] == ReplacedBy(step.task.control) {
      ReplacerIsOfTheSession(s, owed, c);
    }
    hide Inv;
    ExcusedKept(s, owed, step, c);
    WentOnlineKept(s, step, c);
  }

  lemma ReplacerIsOfTheSession(s: State, owed: set<ControlId>, c: ControlId)
    requires Excused(s, owed, c) && c in s.sh.exits && s.sh.exits[c].ReplacedBy?
    ensures Sid(s.sh, s.sh.exits[c].next) == Sid(s.sh, c)
  {
  }

  // ---------- what the index does ----------

  /** After a login the only agent online under its session is the one it described; the others
      were online before, as they are. */
  lemma OnlineAfterLogin(ix: Agents.Index, ids: Ids, spec: Agents.Spec, now: int)
    requires IndexSound(ix, ids) && !Agents.Conflicts(ix, spec)
    requires spec.sessionId != "" && spec.sessionId in ids && ids[spec.sessionId] == (spec.user, spec.agentId)
    ensures var ix' := Agents.Online(ix, spec, now);
            && IndexSound(ix', ids)
            && forall key <- ix'.byKey :: ix'.byKey[key].online ==>
                 if key == Agents.SpecKey(spec)
                 then ix'.byKey[key].sessionId == spec.sessionId && ix'.byKey[key].generation == spec.generation
                 else key in ix.byKey && ix'.byKey[key] == ix.byKey[key] && ix.byKey[key].sessionId != spec.sessionId
  {
    Agents.StepKeepsIndexed(ix, Agents.Login(spec), now);
    Agents.StepKeepsKeyed(ix, Agents.Login(spec), now, ids);
    Agents.LoginKeepsOnlineIndexedIff(ix, spec, now);
  }

  /** Whoever conflicts has nothing online under its own session. */
  lemma ConflictMeansOffline(ix: Agents.Index, ids: Ids, spec: Agents.Spec)
    requires IndexSound(ix, ids) && Agents.Conflicts(ix, spec)
    requires spec.sessionId in ids && ids[spec.sessionId] == (spec.user, spec.agentId)
    ensures forall key <- ix.byKey :: ix.byKey[key].online ==> ix.byKey[key].sessionId != spec.sessionId
  {
  }

  /** A release leaves nothing of this session and generation online, and changes nothing else. */
  lemma OnlineAfterRelease(ix: Agents.Index, ids: Ids, sid: SessionId, c: ControlId, count: nat, now: int)
    requires IndexSound(ix, ids)
    ensures var ix' := Agents.Released(ix, sid, c, count, now);
            && IndexSound(ix', ids)
            && forall key <- ix'.byKey :: ix'.byKey[key].online ==>
                 key in ix.byKey && ix'.byKey[key] == ix.byKey[key]
                 && !(ix.byKey[key].sessionId == sid && ix.byKey[key].generation == c)
  {
    Agents.StepKeepsIndexed(ix, Agents.Leave(sid, c, count), now);
    Agents.StepKeepsKeyed(ix, Agents.Leave(sid, c, count), now, ids);
    Agents.ReleaseKeepsOnlineIndexed(ix, sid, c, count, now);
  }

  // ---------- every step ----------

  lemma GuardedIsIn(s: State, c: ControlId)
    requires Inv(s) && Login(c) in s.tasks && s.tasks[Login(c)].pc.InLogin? && Guarded(s.tasks[Login(c)].pc.login)
    ensures s.tasks[Login(c)].lock.Holding? && c in s.sh.gateOf && c !in s.sh.exits
  {
    TaskFacts(s, Login(c));
    hide Inv;
    assert Get(s.sh.table, Sid(s.sh, c)) == Some(Entry(c, s.tasks[Login(c)].lock.gate));
  }

  lemma NowOnline(s: State, c: ControlId, g: GateId)
    requires Login(c) in s.tasks
    ensures var s' := AdvanceGuarded(s, c, Holding(g), GoOnline, true); s'.sh == s.sh && LoginIs(s', c, WentOnline)
  {
  }

  lemma OnlineIsHonest(s: State, step: Step)
    requires Inv(s) && Enabled(s, step) && GoesOnline(s, step) && step.choice
    ensures var c := step.task.control;
            var s' := Apply(s, step);
            c in s'.sh.gateOf && c !in s'.sh.exits && LoginIs(s', c, WentOnline)
  {
    GuardedIsIn(s, step.task.control);
    hide Inv, AdvanceSwap, AdvanceGuarded, AdvanceEnding, LoginIs, LockFits;
    NowOnline(s, step.task.control, s.tasks[step.task].lock.gate);
  }

  lemma GoOnlineKept(j: Joint, ids: Ids, step: Step, info: Agents.Info, now: int)
    requires JointInv(j, ids) && CanStep(j, ids, Session(step, info, now)) && GoesOnline(j.s, step)
    ensures IndexSound(IndexAfter(j, ids, step, info, now), ids) && Honest(Do(j, ids, Session(step, info, now)))
  {
    var c := step.task.control;
    var spec := SpecOf(j.s, ids, c, info);
    var j' := Do(j, ids, Session(step, info, now));
    TaskFacts(j.s, Login(c));
    StepGrows(j.s, step);
    hide Inv, Apply, IndexSound, HonestEntry, KeepsExits;
    if step.choice {
      OnlineAfterLogin(j.ix, ids, spec, now);
      OnlineIsHonest(j.s, step);
    } else {
      ConflictMeansOffline(j.ix, ids, spec);
    }
    forall key <- j'.ix.byKey | j'.ix.byKey[key].online ensures HonestEntry(j'.s, j'.owed, j'.ix.byKey[key]) {
      if step.choice && key == Agents.SpecKey(spec) {
        CurrentIsHonest(j'.s, j'.owed, j'.ix.byKey[key]);
      } else {
        HonestKept(j.s, j.owed, step, j.ix.byKey[key]);
      }
    }
  }

  lemma CurrentIsHonest(s: State, owed: set<ControlId>, a: Agents.Agent)
    requires a.generation in s.sh.gateOf && a.generation !in s.sh.exits && LoginIs(s, a.generation, WentOnline)
    requires a.sessionId == Sid(s.sh, a.generation)
    ensures HonestEntry(s, owed, a)
  {
  }

  lemma OtherStepKept(j: Joint, ids: Ids, step: Step, info: Agents.Info, now: int)
    requires JointInv(j, ids) && CanStep(j, ids, Session(step, info, now)) && !GoesOnline(j.s, step)
    ensures IndexSound(IndexAfter(j, ids, step, info, now), ids) && Honest(Do(j, ids, Session(step, info, now)))
  {
    var j' := Do(j, ids, Session(step, info, now));
    if AckFails(j.s, step) {
      OnlineAfterRelease(j.ix, ids, Sid(j.s.sh, step.task.control), step.task.control, 0, now);
    }
    hide Inv, Apply, IndexSound;
    forall key <- j'.ix.byKey | j'.ix.byKey[key].online ensures HonestEntry(j'.s, j'.owed, j'.ix.byKey[key]) {
      var a := j.ix.byKey[key];
      assert HonestEntry(j.s, j.owed, a);
      HonestKept(j.s, j.owed, step, a);
    }
  }

  lemma ReleaseKept(j: Joint, ids: Ids, c: ControlId, count: nat, now: int)
    requires JointInv(j, ids) && c in j.owed
    ensures JointInv(Do(j, ids, Release(c, count, now)), ids)
  {
    var j' := Do(j, ids, Release(c, count, now));
    OnlineAfterRelease(j.ix, ids, Sid(j.s.sh, c), c, count, now);
    hide Inv, IndexSound;
    forall key <- j'.ix.byKey | j'.ix.byKey[key].online ensures HonestEntry(j'.s, j'.owed, j'.ix.byKey[key]) {
      assert HonestEntry(j.s, j.owed, j.ix.byKey[key]);
    }
  }

  lemma JointStepKept(j: Joint, ids: Ids, step: JointStep)
    requires JointInv(j, ids) && CanStep(j, ids, step)
    ensures JointInv(Do(j, ids, step), ids)
  {
    match step
    case Session(inner, info, now) =>
      SessionSafety.StepKept(j.s, inner);
      NamedKept(j.s, inner, ids);
      hide Inv, Apply, IndexSound, Honest, SessionsNamed;
      if GoesOnline(j.s, inner) {
        GoOnlineKept(j, ids, inner, info, now);
      } else {
        OtherStepKept(j, ids, inner, info, now);
      }
    case Release(c, count, now) => ReleaseKept(j, ids, c, count, now);
  }

  lemma {:induction false} JointRunKept(j: Joint, ids: Ids, steps: seq<JointStep>)
    requires JointInv(j, ids) && CanRun(j, ids, steps)
    ensures JointInv(Outcome(j, ids, steps), ids)
    decreases |steps|
  {
    if steps != [] {
      hide JointInv;
      JointStepKept(j, ids, steps[0]);
      JointRunKept(Do(j, ids, steps[0]), ids, steps[1..]);
    }
  }

  lemma BeginKept(ids: Ids)
    ensures JointInv(Begin, ids)
  {
  }

  /** Whatever the interleaving of logins, kicks, clean-ups and late releases: an agent that is
      online carries the generation of the current control of its session, or of one whose
      release is still to come, or of one being replaced by the current control, whose login has
      the gate and is about to go online in its place. */
  lemma OnlineAgentsAreAccountedFor(ids: Ids, steps: seq<JointStep>)
    requires CanRun(Begin, ids, steps)
    ensures var j := Outcome(Begin, ids, steps);
            forall key <- j.ix.byKey :: j.ix.byKey[key].online ==>
              var a := j.ix.byKey[key];
              || IsCurrent(j.s.sh.table, a.sessionId, a.generation)
              || ReleasePending(j.s, j.owed, a.generation)
              || (BeingReplaced(j.s, a.generation)
                  && IsCurrent(j.s.sh.table, a.sessionId, j.s.sh.exits[a.generation].next))
  {
    BeginKept(ids);
    JointRunKept(Begin, ids, steps);
    var j := Outcome(Begin, ids, steps);
    forall key <- j.ix.byKey | j.ix.byKey[key].online
      ensures var a := j.ix.byKey[key];
              || IsCurrent(j.s.sh.table, a.sessionId, a.generation)
              || ReleasePending(j.s, j.owed, a.generation)
              || (BeingReplaced(j.s, a.generation)
                  && IsCurrent(j.s.sh.table, a.sessionId, j.s.sh.exits[a.generation].next))
    {
      var c := j.ix.byKey[key].generation;
      assert HonestEntry(j.s, j.owed, j.ix.byKey[key]);
      TaskFacts(j.s, Login(c));
      if BeingReplaced(j.s, c) {
        TaskFacts(j.s, Login(j.s.sh.exits[c].next));
      }
      hide Inv;
    }
  }
}
