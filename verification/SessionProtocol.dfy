/** Logins, dashboard kicks, connection-end cleanups and data-connection lookups racing on
    the session table (session_registry.rs, session_table.rs, service/mod.rs). One step is
    one section executed under a lock, one gate acquisition, one gate drop, or one store to
    a flag of a control; tasks interleave freely between steps. */
module SessionProtocol {
  import opened Wrappers
  import opened SessionTable

  datatype TaskId = Login(control: ControlId) | Kick(k: nat) | Lookup(q: nat)

  /** What a task has to do with a gate: lock_owned().await is pending, or its guard is alive. */
  datatype Lock = Free | Waiting(gate: GateId) | Holding(gate: GateId)

  /** Program counters of register_control, with swap_in_locked and remove_if_current inlined. */
  datatype LoginPc =
    | SwapPeek
    | SwapLock
    | SwapCheck
    | SwapBackOff
    | CloseOld(replaced: ControlId)
    | AwaitOld
    | GoOnline
    | Ack
    | Activate
    | Leave(acked: bool)
    | Running
    | EndSignal
    | RmPeek(acked: bool)
    | RmLock(acked: bool)
    | RmCheck(acked: bool)
    | RmDrop(acked: bool, won: bool)
    | FailSignal(won: bool)
    | LoginDone(acked: bool, won: bool)

  datatype KickPc = KickPeek | KickLock | KickCheck | KickClose | KickRemove | KickDrop(won: bool) | KickDone(won: bool)

  datatype LookupPc = FindPeek | FindLock | FindCheck | FindDrop(found: bool) | FindDone(found: bool)

  datatype Pc =
    | InLogin(login: LoginPc)
    | InKick(sid: SessionId, target: ControlId, kick: KickPc)
    | InLookup(sid: SessionId, target: ControlId, lookup: LookupPc)

  datatype Task = Task(lock: Lock, pc: Pc)

  /** How a control's entry left the table. */
  datatype Exit = ReplacedBy(next: ControlId) | CleanedUp | KickedBy(k: nat)

  /** The session table and the flags of the controls. `gateOf` and `exits` are history: the
      gate each control was installed under, and how its entry left the table. No branch of
      the protocol reads them. */
  datatype Shared = Shared(
    table: Table,
    sidOf: map<ControlId, SessionId>,
    closed: set<ControlId>,
    activated: set<ControlId>,
    gateOf: map<ControlId, GateId>,
    exits: map<ControlId, Exit>)

  datatype State = State(
    sh: Shared,
    holder: map<GateId, TaskId>,
    tasks: map<TaskId, Task>,
    nextGeneration: ControlId,
    nextGate: GateId)

  datatype Step =
    | StartLogin(sid: SessionId)
    | StartKick(k: nat, sid: SessionId)
    | StartLookup(q: nat, sid: SessionId)
    | Advance(task: TaskId, choice: bool)
    | CloseAnytime(control: ControlId)

  const Start := State(Shared(map[], map[], {}, {}, map[], map[]), map[], map[], 1, 0)

  /** The login of a control has put it into the table. */
  predicate Installed(pc: LoginPc) {
    !pc.SwapPeek? && !pc.SwapLock? && !pc.SwapCheck? && !pc.SwapBackOff?
  }

  /** Between the return of swap_in_locked and the drop of its guard. */
  predicate Guarded(pc: LoginPc) {
    pc.CloseOld? || pc.AwaitOld? || pc.GoOnline? || pc.Ack? || pc.Activate? || pc.Leave?
  }

  predicate Finished(pc: Pc) {
    match pc
    case InLogin(l) => l.LoginDone?
    case InKick(_, _, k) => k.KickDone?
    case InLookup(_, _, q) => q.FindDone?
  }

  /** A control that data connections may be handed to: is_accepting_data. */
  predicate Accepting(sh: Shared, c: ControlId) {
    c in sh.activated && c !in sh.closed
  }

  predicate Enabled(s: State, step: Step) {
    match step
    case StartLogin(_) => true
    case StartKick(k, _) => Kick(k) !in s.tasks
    case StartLookup(q, _) => Lookup(q) !in s.tasks
    case Advance(t, _) =>
      && t in s.tasks
      && !Finished(s.tasks[t].pc)
      && (s.tasks[t].lock.Waiting? ==> s.tasks[t].lock.gate !in s.holder)
    case CloseAnytime(c) => Login(c) in s.tasks
  }

  function At(s: State, t: TaskId, lock: Lock, pc: Pc): State {
    s.(tasks := s.tasks[t := Task(lock, pc)])
  }

  function Acquire(s: State, t: TaskId, gate: GateId, pc: Pc): State {
    At(s.(holder := s.holder[gate := t]), t, Holding(gate), pc)
  }

  function Drop(s: State, t: TaskId, gate: GateId, pc: Pc): State {
    At(s.(holder := s.holder - {gate}), t, Free, pc)
  }

  /** signal_close. */
  function Close(s: State, c: ControlId): State {
    s.(sh := s.sh.(closed := s.sh.closed + {c}))
  }

  /** The session a control logged in for. */
  function Sid(sh: Shared, c: ControlId): SessionId {
    if c in sh.sidOf then sh.sidOf[c] else ""
  }

  function Apply(s: State, step: Step): State
    requires Enabled(s, step)
  {
    match step
    case StartLogin(sid) =>
      var c := s.nextGeneration;
      At(s.(nextGeneration := c + 1, sh := s.sh.(sidOf := s.sh.sidOf[c := sid])), Login(c), Free, InLogin(SwapPeek))
    case StartKick(k, sid) => At(s, Kick(k), Free, InKick(sid, 0, KickPeek))
    case StartLookup(q, sid) => At(s, Lookup(q), Free, InLookup(sid, 0, FindPeek))
    case CloseAnytime(c) => Close(s, c)
    case Advance(t, choice) =>
      var task := s.tasks[t];
      match task.pc
      case InLogin(pc) => (match t case Login(c) => AdvanceLogin(s, c, task.lock, pc, choice) case _ => s)
      case InKick(sid, c, pc) => AdvanceKick(s, t, sid, c, task.lock, pc)
      case InLookup(sid, c, pc) => AdvanceLookup(s, t, sid, c, task.lock, pc)
  }

  /** register_control; `choice` resolves an agent id conflict and a failed acknowledgement. */
  function AdvanceLogin(s: State, c: ControlId, lock: Lock, pc: LoginPc, choice: bool): State {
    if !Installed(pc) then AdvanceSwap(s, c, lock, pc)
    else if Guarded(pc) then AdvanceGuarded(s, c, lock, pc, choice)
    else AdvanceEnding(s, c, lock, pc)
  }

  /** swap_in_locked. */
  function AdvanceSwap(s: State, c: ControlId, lock: Lock, pc: LoginPc): State {
    var t := Login(c);
    var sid := Sid(s.sh, c);
    match (pc, lock)
    case (SwapPeek, Free) =>
      (match Get(s.sh.table, sid)
       case Some(e) => At(s, t, Waiting(e.gate), InLogin(SwapLock))
       case None => At(s.(nextGate := s.nextGate + 1), t, Waiting(s.nextGate), InLogin(SwapLock)))
    case (SwapLock, Waiting(g)) => Acquire(s, t, g, InLogin(SwapCheck))
    case (SwapCheck, Holding(g)) =>
      if GateIsStale(s.sh.table, sid, g) then At(s, t, lock, InLogin(SwapBackOff)) else InstallStep(s, c, sid, g)
    case (SwapBackOff, Holding(g)) => Drop(s, t, g, InLogin(SwapPeek))
    case _ => s
  }

  /** The old control is shut down, the agent goes online, the login is acknowledged. */
  function AdvanceGuarded(s: State, c: ControlId, lock: Lock, pc: LoginPc, choice: bool): State {
    var t := Login(c);
    match (pc, lock)
    case (CloseOld(replaced), Holding(g)) => At(Close(s, replaced), t, lock, InLogin(AwaitOld))
    case (AwaitOld, Holding(g)) => At(s, t, lock, InLogin(GoOnline))
    case (GoOnline, Holding(g)) => At(s, t, lock, InLogin(if choice then Ack else Leave(false)))
    case (Ack, Holding(g)) => At(s, t, lock, InLogin(if choice then Activate else Leave(false)))
    case (Activate, Holding(g)) => At(s.(sh := s.sh.(activated := s.sh.activated + {c})), t, lock, InLogin(Leave(true)))
    case (Leave(acked), Holding(g)) => Drop(s, t, g, InLogin(if acked then Running else RmPeek(false)))
    case _ => s
  }

  /** The connection, its end, and remove_if_current; also the removal after a failed login. */
  function AdvanceEnding(s: State, c: ControlId, lock: Lock, pc: LoginPc): State {
    var t := Login(c);
    var sid := Sid(s.sh, c);
    match (pc, lock)
    case (Running, Free) => At(s, t, Free, InLogin(EndSignal))
    case (EndSignal, Free) => At(Close(s, c), t, Free, InLogin(RmPeek(true)))
    case (RmPeek(acked), Free) =>
      if IsCurrent(s.sh.table, sid, c) then At(s, t, Waiting(s.sh.table[sid].gate), InLogin(RmLock(acked)))
      else At(s, t, Free, InLogin(if acked then LoginDone(true, false) else FailSignal(false)))
    case (RmLock(acked), Waiting(g)) => Acquire(s, t, g, InLogin(RmCheck(acked)))
    case (RmCheck(acked), Holding(g)) =>
      if IsCurrent(s.sh.table, sid, c)
      then At(Remove(s, sid, c, CleanedUp), t, lock, InLogin(RmDrop(acked, true)))
      else At(s, t, lock, InLogin(RmDrop(acked, false)))
    case (RmDrop(acked, won), Holding(g)) =>
      Drop(s, t, g, InLogin(if acked then LoginDone(true, won) else FailSignal(won)))
    case (FailSignal(won), Free) => At(Close(s, c), t, Free, InLogin(LoginDone(false, won)))
    case _ => s
  }

  function InstallStep(s: State, c: ControlId, sid: SessionId, g: GateId): State {
    var s' := s.(sh := Install(s.sh, c, sid, g));
    match Previous(s.sh.table, sid)
    case Some(replaced) => At(s', Login(c), Holding(g), InLogin(CloseOld(replaced)))
    case None => At(s', Login(c), Holding(g), InLogin(GoOnline))
  }

  function Install(sh: Shared, c: ControlId, sid: SessionId, g: GateId): Shared {
    sh.(table := WithEntry(sh.table, sid, c, g),
        gateOf := sh.gateOf[c := g],
        exits := match Previous(sh.table, sid)
                 case Some(replaced) => sh.exits[replaced := ReplacedBy(c)]
                 case None => sh.exits)
  }

  function Remove(s: State, sid: SessionId, c: ControlId, how: Exit): State {
    s.(sh := s.sh.(table := WithoutCurrent(s.sh.table, sid, c), exits := s.sh.exits[c := how]))
  }

  /** kick_client. */
  function AdvanceKick(s: State, t: TaskId, sid: SessionId, c: ControlId, lock: Lock, pc: KickPc): State {
    match (pc, lock)
    case (KickPeek, Free) =>
      (match Get(s.sh.table, sid)
       case Some(e) => At(s, t, Waiting(e.gate), InKick(sid, e.control, KickLock))
       case None => At(s, t, Free, InKick(sid, c, KickDone(false))))
    case (KickLock, Waiting(g)) => Acquire(s, t, g, InKick(sid, c, KickCheck))
    case (KickCheck, Holding(g)) =>
      At(s, t, lock, InKick(sid, c, if IsCurrent(s.sh.table, sid, c) then KickClose else KickDrop(false)))
    case (KickClose, Holding(g)) => At(Close(s, c), t, lock, InKick(sid, c, KickRemove))
    case (KickRemove, Holding(g)) =>
      if IsCurrent(s.sh.table, sid, c) && t.Kick?
      then At(Remove(s, sid, c, KickedBy(t.k)), t, lock, InKick(sid, c, KickDrop(true)))
      else At(s, t, lock, InKick(sid, c, KickDrop(false)))
    case (KickDrop(won), Holding(g)) => Drop(s, t, g, InKick(sid, c, KickDone(won)))
    case _ => s
  }

  /** lookup_accepting. */
  function AdvanceLookup(s: State, t: TaskId, sid: SessionId, c: ControlId, lock: Lock, pc: LookupPc): State {
    match (pc, lock)
    case (FindPeek, Free) =>
      (match Get(s.sh.table, sid)
       case Some(e) => At(s, t, Waiting(e.gate), InLookup(sid, e.control, FindLock))
       case None => At(s, t, Free, InLookup(sid, c, FindDone(false))))
    case (FindLock, Waiting(g)) => Acquire(s, t, g, InLookup(sid, c, FindCheck))
    case (FindCheck, Holding(g)) =>
      At(s, t, lock, InLookup(sid, c, FindDrop(IsCurrent(s.sh.table, sid, c) && Accepting(s.sh, c))))
    case (FindDrop(found), Holding(g)) => Drop(s, t, g, InLookup(sid, c, FindDone(found)))
    case _ => s
  }

  /** Every prefix of the schedule is enabled from `s`. */
  predicate Runs(s: State, steps: seq<Step>)
    decreases |steps|
  {
    steps == [] || (Enabled(s, steps[0]) && Runs(Apply(s, steps[0]), steps[1..]))
  }

  function After(s: State, steps: seq<Step>): State
    requires Runs(s, steps)
    decreases |steps|
  {
    if steps == [] then s else After(Apply(s, steps[0]), steps[1..])
  }
}
