/** What every interleaving of the session protocol keeps, and the safety results it gives. */
module SessionSafety {
  import opened Wrappers
  import opened SessionTable
  import opened SessionProtocol

  // ---------- the invariant ----------

  /** The login has been acknowledged and its control activated. */
  predicate Acked(pc: LoginPc) {
    pc.Running? || pc.EndSignal? || (pc.Leave? && pc.acked) || Ending(pc)
  }

  /** The login has signalled its own control closed at the end of the connection. */
  predicate Ending(pc: LoginPc) {
    (pc.RmPeek? || pc.RmLock? || pc.RmCheck? || pc.RmDrop? || pc.LoginDone?) && pc.acked
  }

  predicate WonCleanup(pc: LoginPc) {
    (pc.RmDrop? || pc.FailSignal? || pc.LoginDone?) && pc.won
  }

  predicate WonKick(pc: KickPc) {
    (pc.KickDrop? || pc.KickDone?) && pc.won
  }

  /** A gate is taken or awaited exactly where the source has its guard or awaits it. */
  predicate LockFits(lock: Lock, pc: Pc) {
    match pc
    case InLogin(l) =>
      && (lock.Waiting? <==> l.SwapLock? || l.RmLock?)
      && (lock.Holding? <==> l.SwapCheck? || l.SwapBackOff? || Guarded(l) || l.RmCheck? || l.RmDrop?)
    case InKick(_, _, k) =>
      && (lock.Waiting? <==> k.KickLock?)
      && (lock.Holding? <==> k.KickCheck? || k.KickClose? || k.KickRemove? || k.KickDrop?)
    case InLookup(_, _, q) =>
      && (lock.Waiting? <==> q.FindLock?)
      && (lock.Holding? <==> q.FindCheck? || q.FindDrop?)
  }

  /** Every task is of its kind, its lock fits its program counter, and its gate is known. */
  ghost predicate Shape(s: State) {
    && (forall t <- s.tasks ::
          && LockFits(s.tasks[t].lock, s.tasks[t].pc)
          && (s.tasks[t].lock.Waiting? ==> s.tasks[t].lock.gate < s.nextGate)
          && (t.Login? ==> t.control < s.nextGeneration))
    && (forall g <- s.holder :: g < s.nextGate)
    && (forall c <- s.sh.gateOf :: s.sh.gateOf[c] < s.nextGate)
  }

  /** A gate is held by exactly the task that has its guard. */
  ghost predicate GatesAgree(s: State) {
    && (forall t <- s.tasks :: s.tasks[t].lock.Holding? ==>
          s.tasks[t].lock.gate in s.holder && s.holder[s.tasks[t].lock.gate] == t)
    && (forall g <- s.holder :: s.holder[g] in s.tasks && s.tasks[s.holder[g]].lock == Holding(g))
  }

  /** Entries belong to installed controls and keep the gate they were installed under. */
  ghost predicate TableAgrees(sh: Shared) {
    && (forall sid <- sh.table ::
          var e := sh.table[sid];
          e.control in sh.gateOf && Sid(sh, e.control) == sid && sh.gateOf[e.control] == e.gate)
    && (forall c :: c in sh.exits <==> c in sh.gateOf && !IsCurrent(sh.table, Sid(sh, c), c))
    && sh.gateOf.Keys <= sh.sidOf.Keys
    && sh.activated <= sh.gateOf.Keys
  }

  // What the program counter of each kind of task tells about the table and the flags.

  ghost predicate LoginKnows(sh: Shared, c: ControlId, lock: Lock, pc: LoginPc) {
    && c in sh.sidOf
    && (c in sh.gateOf <==> Installed(pc))
    && (Guarded(pc) && lock.Holding? ==> Get(sh.table, Sid(sh, c)) == Some(Entry(c, lock.gate)))
    && (pc.CloseOld? ==> pc.replaced in sh.exits && Sid(sh, pc.replaced) == Sid(sh, c))
    && (pc.CloseOld? && lock.Holding? ==> pc.replaced in sh.gateOf && sh.gateOf[pc.replaced] == lock.gate)
    && ((pc.RmLock? && lock.Waiting?) || (pc.RmCheck? && lock.Holding?) ==> c in sh.gateOf && lock.gate == sh.gateOf[c])
    && (c in sh.activated <==> Acked(pc))
    && (Ending(pc) ==> c in sh.closed)
    && (pc.FailSignal? || pc.RmDrop? || pc.LoginDone? ==> c in sh.exits)
    && (c in sh.exits && sh.exits[c].CleanedUp? <==> WonCleanup(pc))
  }

  ghost predicate TargetKnown(sh: Shared, sid: SessionId, c: ControlId, lock: Lock) {
    lock.Free? || (c in sh.gateOf && Sid(sh, c) == sid && lock.gate == sh.gateOf[c])
  }

  ghost predicate KickKnows(sh: Shared, k: nat, sid: SessionId, target: ControlId, lock: Lock, pc: KickPc) {
    && TargetKnown(sh, sid, target, lock)
    && (pc.KickClose? || pc.KickRemove? ==> IsCurrent(sh.table, sid, target))
    && (pc.KickRemove? ==> target in sh.closed)
    && (forall c <- sh.exits :: sh.exits[c] == KickedBy(k) ==> WonKick(pc) && c == target)
    && (WonKick(pc) ==> target in sh.exits && sh.exits[target] == KickedBy(k))
  }

  ghost predicate Knows(sh: Shared, t: TaskId, task: Task) {
    match task.pc
    case InLogin(pc) => t.Login? && LoginKnows(sh, t.control, task.lock, pc)
    case InKick(sid, c, pc) => t.Kick? && KickKnows(sh, t.k, sid, c, task.lock, pc)
    case InLookup(sid, c, pc) => t.Lookup? && TargetKnown(sh, sid, c, task.lock)
  }

  ghost predicate Knowledge(s: State) {
    && (forall t <- s.tasks :: Knows(s.sh, t, s.tasks[t]))
    && (forall c <- s.sh.exits :: s.sh.exits[c].KickedBy? ==> Kick(s.sh.exits[c].k) in s.tasks)
    && (forall c <- s.sh.sidOf :: Login(c) in s.tasks)
  }

  /** The login that replaced `c` holds the gate and is about to signal `c` closed. */
  predicate BeingClosed(s: State, c: ControlId) {
    && c in s.sh.exits && s.sh.exits[c].ReplacedBy?
    && Login(s.sh.exits[c].next) in s.tasks
    && s.tasks[Login(s.sh.exits[c].next)].pc == InLogin(CloseOld(c))
  }

  /** An accepting control is the current one, or is just being closed by its successor. */
  ghost predicate AcceptingIsCurrent(s: State) {
    forall c <- s.sh.activated ::
      c !in s.sh.closed ==> IsCurrent(s.sh.table, Sid(s.sh, c), c) || BeingClosed(s, c)
  }

  ghost predicate Inv(s: State) {
    Shape(s) && GatesAgree(s) && TableAgrees(s.sh) && Knowledge(s) && AcceptingIsCurrent(s)
  }

  // ---------- preservation ----------

  /** One task moves on; what all the others know stays true. */
  lemma OneTaskMoves(s: State, s': State, t: TaskId, task: Task)
    requires Knowledge(s) && AcceptingIsCurrent(s) && t in s.tasks
    requires s'.sh == s.sh && s'.tasks == s.tasks[t := task] && Knows(s.sh, t, task)
    requires s.tasks[t].pc.InLogin? && s.tasks[t].pc.login.CloseOld? ==> s.tasks[t].pc.login.replaced in s.sh.closed
    ensures Knowledge(s') && AcceptingIsCurrent(s')
  {
    hide Knows;
    forall c <- s'.sh.activated | c !in s'.sh.closed && !IsCurrent(s'.sh.table, Sid(s'.sh, c), c)
      ensures BeingClosed(s', c)
    {
      assert BeingClosed(s, c);
    }
  }

  /** One task moves on without touching anything shared. */
  lemma MoveKept(s: State, t: TaskId, lock: Lock, pc: Pc)
    requires Inv(s) && t in s.tasks
    requires lock.Holding? || s.tasks[t].lock.Holding? ==> lock == s.tasks[t].lock
    requires lock.Waiting? ==> lock.gate < s.nextGate
    requires LockFits(lock, pc) && Knows(s.sh, t, Task(lock, pc))
    requires s.tasks[t].pc.InLogin? && s.tasks[t].pc.login.CloseOld? ==> s.tasks[t].pc.login.replaced in s.sh.closed
    ensures Inv(At(s, t, lock, pc))
  {
    hide Knows, LockFits, TableAgrees, Knowledge, AcceptingIsCurrent;
    OneTaskMoves(s, At(s, t, lock, pc), t, Task(lock, pc));
  }

  lemma AcquireKept(s: State, t: TaskId, g: GateId, pc: Pc)
    requires Inv(s) && t in s.tasks
    requires s.tasks[t].lock == Waiting(g) && g !in s.holder
    requires LockFits(Holding(g), pc) && Knows(s.sh, t, Task(Holding(g), pc))
    ensures Inv(Acquire(s, t, g, pc))
  {
    WaitingIsNotClosing(s, t);
    AcquireGates(s, t, g, pc);
    hide Knows, LockFits, Shape, GatesAgree, TableAgrees, Knowledge, AcceptingIsCurrent;
    OneTaskMoves(s, Acquire(s, t, g, pc), t, Task(Holding(g), pc));
  }

  lemma AcquireGates(s: State, t: TaskId, g: GateId, pc: Pc)
    requires Shape(s) && GatesAgree(s) && t in s.tasks
    requires s.tasks[t].lock == Waiting(g) && g !in s.holder && LockFits(Holding(g), pc)
    ensures Shape(Acquire(s, t, g, pc)) && GatesAgree(Acquire(s, t, g, pc))
  {
    hide LockFits;
    var s' := Acquire(s, t, g, pc);
    forall h <- s'.holder ensures s'.holder[h] in s'.tasks && s'.tasks[s'.holder[h]].lock == Holding(h) {
      if h != g {
        assert s.holder[h] != t;
      }
    }
  }

  lemma WaitingIsNotClosing(s: State, t: TaskId)
    requires Shape(s) && t in s.tasks && s.tasks[t].lock.Waiting?
    ensures !(s.tasks[t].pc.InLogin? && s.tasks[t].pc.login.CloseOld?)
  {
  }

  lemma DropKept(s: State, t: TaskId, g: GateId, pc: Pc)
    requires Inv(s) && t in s.tasks
    requires s.tasks[t].lock == Holding(g)
    requires !(s.tasks[t].pc.InLogin? && s.tasks[t].pc.login.CloseOld?)
    requires LockFits(Free, pc) && Knows(s.sh, t, Task(Free, pc))
    ensures Inv(Drop(s, t, g, pc))
  {
    hide Knows, LockFits, TableAgrees, Knowledge, AcceptingIsCurrent;
    OneTaskMoves(s, Drop(s, t, g, pc), t, Task(Free, pc));
  }

  lemma KnowsDespiteClose(sh: Shared, c: ControlId, t: TaskId, task: Task)
    requires Knows(sh, t, task)
    ensures Knows(sh.(closed := sh.closed + {c}), t, task)
  {
    match task.pc
    case InLogin(_) =>
    case InKick(_, _, _) =>
    case InLookup(_, _, _) =>
  }

  lemma CloseKept(s: State, c: ControlId)
    requires Inv(s)
    ensures Inv(Close(s, c))
  {
    hide Knows, LockFits;
    forall t <- s.tasks ensures Knows(Close(s, c).sh, t, s.tasks[t]) {
      KnowsDespiteClose(s.sh, c, t, s.tasks[t]);
    }
  }

  /** A new task holds and awaits nothing. */
  lemma SpawnGates(s: State, s': State, t: TaskId, pc: Pc)
    requires Shape(s) && GatesAgree(s) && t !in s.tasks && LockFits(Free, pc)
    requires s'.tasks == s.tasks[t := Task(Free, pc)] && s'.holder == s.holder && s'.nextGate == s.nextGate
    requires s'.sh.gateOf == s.sh.gateOf && s'.nextGeneration >= s.nextGeneration
    requires t.Login? ==> t.control < s'.nextGeneration
    ensures Shape(s') && GatesAgree(s')
  {
    hide LockFits;
    forall h <- s'.holder ensures s'.holder[h] in s'.tasks && s'.tasks[s'.holder[h]].lock == Holding(h) {
      assert s.holder[h] != t;
    }
  }

  /** A new task with nothing to know leaves what the others know. */
  lemma SpawnKnows(s: State, s': State, t: TaskId, pc: Pc)
    requires Knowledge(s) && AcceptingIsCurrent(s) && t !in s.tasks
    requires s'.tasks == s.tasks[t := Task(Free, pc)] && s'.sh == s.sh && Knows(s.sh, t, Task(Free, pc))
    ensures Knowledge(s') && AcceptingIsCurrent(s')
  {
    hide Knows;
    forall c <- s'.sh.activated | c !in s'.sh.closed && !IsCurrent(s'.sh.table, Sid(s'.sh, c), c)
      ensures BeingClosed(s', c)
    {
      assert BeingClosed(s, c);
    }
  }

  lemma NotYetAKicker(s: State, k: nat, sid: SessionId)
    requires Knowledge(s) && Kick(k) !in s.tasks
    ensures KickKnows(s.sh, k, sid, 0, Free, KickPeek)
  {
    hide Knows;
  }

  lemma SpawnKickKept(s: State, k: nat, sid: SessionId)
    requires Inv(s) && Kick(k) !in s.tasks
    ensures Inv(At(s, Kick(k), Free, InKick(sid, 0, KickPeek)))
  {
    var s' := At(s, Kick(k), Free, InKick(sid, 0, KickPeek));
    NotYetAKicker(s, k, sid);
    SpawnGates(s, s', Kick(k), InKick(sid, 0, KickPeek));
    SpawnKnows(s, s', Kick(k), InKick(sid, 0, KickPeek));
    hide Shape, GatesAgree, TableAgrees, Knowledge, AcceptingIsCurrent;
  }

  lemma SpawnLookupKept(s: State, q: nat, sid: SessionId)
    requires Inv(s) && Lookup(q) !in s.tasks
    ensures Inv(At(s, Lookup(q), Free, InLookup(sid, 0, FindPeek)))
  {
    var s' := At(s, Lookup(q), Free, InLookup(sid, 0, FindPeek));
    SpawnGates(s, s', Lookup(q), InLookup(sid, 0, FindPeek));
    SpawnKnows(s, s', Lookup(q), InLookup(sid, 0, FindPeek));
    hide Shape, GatesAgree, TableAgrees, Knowledge, AcceptingIsCurrent;
  }

  lemma KnowsDespiteNewLogin(sh: Shared, c: ControlId, sid: SessionId, t: TaskId, task: Task)
    requires TableAgrees(sh) && c !in sh.sidOf && Knows(sh, t, task)
    ensures Knows(sh.(sidOf := sh.sidOf[c := sid]), t, task)
  {
    match task.pc
    case InLogin(_) =>
    case InKick(_, _, _) =>
    case InLookup(_, _, _) =>
  }

  lemma GenerationIsFresh(s: State)
    requires Shape(s) && Knowledge(s)
    ensures s.nextGeneration !in s.sh.sidOf && Login(s.nextGeneration) !in s.tasks
  {
    hide Knows, LockFits;
  }

  lemma TableAgreesAfterNewLogin(sh: Shared, c: ControlId, sid: SessionId)
    requires TableAgrees(sh) && c !in sh.sidOf
    ensures TableAgrees(sh.(sidOf := sh.sidOf[c := sid]))
    ensures forall d <- sh.gateOf :: Sid(sh.(sidOf := sh.sidOf[c := sid]), d) == Sid(sh, d)
    ensures c !in sh.gateOf && c !in sh.exits && c !in sh.activated
  {
  }

  lemma NewLoginKnows(sh: Shared, c: ControlId, sid: SessionId)
    requires TableAgrees(sh) && c !in sh.sidOf
    ensures Knows(sh.(sidOf := sh.sidOf[c := sid]), Login(c), Task(Free, InLogin(SwapPeek)))
  {
  }

  lemma SpawnLoginKnows(s: State, s': State, c: ControlId, sid: SessionId)
    requires TableAgrees(s.sh) && Knowledge(s) && AcceptingIsCurrent(s) && c !in s.sh.sidOf && Login(c) !in s.tasks
    requires s'.sh == s.sh.(sidOf := s.sh.sidOf[c := sid]) && s'.tasks == s.tasks[Login(c) := Task(Free, InLogin(SwapPeek))]
    ensures Knowledge(s') && AcceptingIsCurrent(s')
  {
    TableAgreesAfterNewLogin(s.sh, c, sid);
    NewLoginKnows(s.sh, c, sid);
    assert s.sh.activated <= s.sh.gateOf.Keys;
    hide Knows, TableAgrees;
    forall t <- s'.tasks ensures Knows(s'.sh, t, s'.tasks[t]) {
      if t != Login(c) {
        KnowsDespiteNewLogin(s.sh, c, sid, t, s.tasks[t]);
      }
    }
    forall d <- s'.sh.activated | d !in s'.sh.closed && !IsCurrent(s'.sh.table, Sid(s'.sh, d), d)
      ensures BeingClosed(s', d)
    {
      assert Sid(s'.sh, d) == Sid(s.sh, d) && BeingClosed(s, d);
    }
  }

  lemma SpawnLoginKept(s: State, sid: SessionId)
    requires Inv(s)
    ensures Inv(Apply(s, StartLogin(sid)))
  {
    var c := s.nextGeneration;
    var s' := Apply(s, StartLogin(sid));
    GenerationIsFresh(s);
    SpawnGates(s, s', Login(c), InLogin(SwapPeek));
    TableAgreesAfterNewLogin(s.sh, c, sid);
    SpawnLoginKnows(s, s', c, sid);
    hide Shape, GatesAgree, TableAgrees, Knowledge, AcceptingIsCurrent;
  }

  /** Peeking an absent entry draws a fresh gate. */
  lemma FreshGateKept(s: State)
    requires Inv(s)
    ensures Inv(s.(nextGate := s.nextGate + 1))
  {
  }

  lemma KnowsDespiteInstall(sh: Shared, c: ControlId, sid: SessionId, g: GateId, t: TaskId, task: Task)
    requires TableAgrees(sh) && c in sh.sidOf && c !in sh.gateOf && Sid(sh, c) == sid
    requires !GateIsStale(sh.table, sid, g)
    requires Knows(sh, t, task) && LockFits(task.lock, task.pc)
    requires t != Login(c) && task.lock != Holding(g)
    ensures Knows(Install(sh, c, sid, g), t, task)
  {
    match task.pc
    case InLogin(_) =>
    case InKick(_, _, _) =>
    case InLookup(_, _, _) =>
  }

  lemma TableAgreesAfterInstall(sh: Shared, c: ControlId, sid: SessionId, g: GateId)
    requires TableAgrees(sh) && c in sh.sidOf && c !in sh.gateOf && Sid(sh, c) == sid
    requires !GateIsStale(sh.table, sid, g)
    ensures TableAgrees(Install(sh, c, sid, g))
  {
    var sh' := Install(sh, c, sid, g);
    assert forall d <- sh.gateOf :: Sid(sh', d) == Sid(sh, d);
    forall d
      ensures d in sh'.exits <==> d in sh'.gateOf && !IsCurrent(sh'.table, Sid(sh', d), d)
    {
    }
  }

  /** A step that keeps every lock keeps the shape, whatever it does to the table and flags. */
  lemma SameLocks(s: State, sh: Shared, t: TaskId, pc: Pc)
    requires Shape(s) && GatesAgree(s) && t in s.tasks && LockFits(s.tasks[t].lock, pc)
    requires forall c <- sh.gateOf :: sh.gateOf[c] < s.nextGate
    ensures var s' := At(s.(sh := sh), t, s.tasks[t].lock, pc); Shape(s') && GatesAgree(s')
  {
  }

  ghost predicate AtInstall(s: State, c: ControlId, sid: SessionId, g: GateId) {
    && Login(c) in s.tasks && Sid(s.sh, c) == sid
    && s.tasks[Login(c)] == Task(Holding(g), InLogin(SwapCheck))
    && !GateIsStale(s.sh.table, sid, g)
  }

  lemma InstallerKnows(sh: Shared, c: ControlId, sid: SessionId, g: GateId)
    requires TableAgrees(sh) && Sid(sh, c) == sid && LoginKnows(sh, c, Holding(g), SwapCheck)
    requires !GateIsStale(sh.table, sid, g)
    ensures sid in sh.table ==> LoginKnows(Install(sh, c, sid, g), c, Holding(g), CloseOld(sh.table[sid].control))
    ensures sid !in sh.table ==> LoginKnows(Install(sh, c, sid, g), c, Holding(g), GoOnline)
  {
  }

  lemma KnowledgeAfterInstall(s: State, c: ControlId, sid: SessionId, g: GateId)
    requires Shape(s) && GatesAgree(s) && TableAgrees(s.sh) && Knowledge(s) && AtInstall(s, c, sid, g)
    ensures Knowledge(InstallStep(s, c, sid, g))
  {
    var s' := InstallStep(s, c, sid, g);
    assert LoginKnows(s.sh, c, Holding(g), SwapCheck) by { assert Knows(s.sh, Login(c), s.tasks[Login(c)]); }
    forall t <- s'.tasks
      ensures Knows(s'.sh, t, s'.tasks[t])
    {
      if t == Login(c) {
        InstallerKnows(s.sh, c, sid, g);
      } else {
        assert s.tasks[t].lock != Holding(g);
        KnowsDespiteInstall(s.sh, c, sid, g, t, s.tasks[t]);
      }
    }
  }

  lemma StillBeingClosed(s: State, c: ControlId, sid: SessionId, g: GateId, d: ControlId)
    requires TableAgrees(s.sh) && AtInstall(s, c, sid, g) && c !in s.sh.gateOf && BeingClosed(s, d)
    ensures BeingClosed(InstallStep(s, c, sid, g), d)
  {
    assert s.sh.exits[d].next != c;
  }

  lemma CurrentOrReplaced(s: State, c: ControlId, sid: SessionId, g: GateId, d: ControlId)
    requires TableAgrees(s.sh) && d in s.sh.gateOf && c !in s.sh.gateOf && IsCurrent(s.sh.table, Sid(s.sh, d), d)
    ensures var s' := InstallStep(s, c, sid, g); IsCurrent(s'.sh.table, Sid(s'.sh, d), d) || BeingClosed(s', d)
  {
  }

  lemma AcceptingAfterInstall(s: State, c: ControlId, sid: SessionId, g: GateId)
    requires TableAgrees(s.sh) && AcceptingIsCurrent(s) && AtInstall(s, c, sid, g)
    requires c in s.sh.sidOf && c !in s.sh.gateOf
    ensures AcceptingIsCurrent(InstallStep(s, c, sid, g))
  {
    var s' := InstallStep(s, c, sid, g);
    hide AtInstall, BeingClosed, IsCurrent;
    forall d <- s'.sh.activated | d !in s'.sh.closed
      ensures IsCurrent(s'.sh.table, Sid(s'.sh, d), d) || BeingClosed(s', d)
    {
      assert d in s.sh.activated && d !in s.sh.closed;
      if BeingClosed(s, d) {
        StillBeingClosed(s, c, sid, g, d);
      } else {
        CurrentOrReplaced(s, c, sid, g, d);
      }
    }
  }

  lemma InstallKept(s: State, c: ControlId, sid: SessionId, g: GateId)
    requires Inv(s) && AtInstall(s, c, sid, g)
    ensures Inv(InstallStep(s, c, sid, g))
  {
    assert LoginKnows(s.sh, c, Holding(g), SwapCheck) by { assert Knows(s.sh, Login(c), s.tasks[Login(c)]); }
    KnowledgeAfterInstall(s, c, sid, g);
    AcceptingAfterInstall(s, c, sid, g);
    TableAgreesAfterInstall(s.sh, c, sid, g);
    SameLocks(s, Install(s.sh, c, sid, g), Login(c), InstallStep(s, c, sid, g).tasks[Login(c)].pc);
  }

  lemma KnowsDespiteRemove(sh: Shared, c: ControlId, sid: SessionId, how: Exit, t: TaskId, task: Task)
    requires TableAgrees(sh) && IsCurrent(sh.table, sid, c) && !how.ReplacedBy?
    requires Knows(sh, t, task) && LockFits(task.lock, task.pc)
    requires task.lock != Holding(sh.gateOf[c])
    requires how.CleanedUp? ==> t != Login(c)
    requires how.KickedBy? ==> t != Kick(how.k)
    ensures Knows(sh.(table := WithoutCurrent(sh.table, sid, c), exits := sh.exits[c := how]), t, task)
  {
    match task.pc
    case InLogin(_) =>
    case InKick(_, _, _) =>
    case InLookup(_, _, _) =>
  }

  ghost predicate AtRemove(s: State, t: TaskId, sid: SessionId, c: ControlId, how: Exit) {
    && t in s.tasks && IsCurrent(s.sh.table, sid, c) && c in s.sh.gateOf
    && s.tasks[t].lock == Holding(s.sh.gateOf[c])
    && ((how.CleanedUp? && t == Login(c)) || (how.KickedBy? && t == Kick(how.k)))
    && (s.tasks[t].pc.InLogin? ==> !s.tasks[t].pc.login.CloseOld?)
  }

  lemma KnowledgeAfterRemove(s: State, t: TaskId, sid: SessionId, c: ControlId, how: Exit, pc: Pc)
    requires Shape(s) && GatesAgree(s) && TableAgrees(s.sh) && Knowledge(s) && AtRemove(s, t, sid, c, how)
    requires Knows(Remove(s, sid, c, how).sh, t, Task(s.tasks[t].lock, pc))
    ensures Knowledge(At(Remove(s, sid, c, how), t, s.tasks[t].lock, pc))
  {
    var s' := At(Remove(s, sid, c, how), t, s.tasks[t].lock, pc);
    forall u <- s'.tasks
      ensures Knows(s'.sh, u, s'.tasks[u])
    {
      if u != t {
        KnowsDespiteRemove(s.sh, c, sid, how, u, s.tasks[u]);
      }
    }
  }

  lemma AcceptingAfterRemove(s: State, t: TaskId, sid: SessionId, c: ControlId, how: Exit, pc: Pc)
    requires TableAgrees(s.sh) && AcceptingIsCurrent(s) && AtRemove(s, t, sid, c, how)
    requires c in s.sh.closed || c !in s.sh.activated
    ensures AcceptingIsCurrent(At(Remove(s, sid, c, how), t, s.tasks[t].lock, pc))
  {
    var s' := At(Remove(s, sid, c, how), t, s.tasks[t].lock, pc);
    forall d <- s'.sh.activated | d !in s'.sh.closed
      ensures IsCurrent(s'.sh.table, Sid(s'.sh, d), d) || BeingClosed(s', d)
    {
      assert d in s.sh.activated && Sid(s'.sh, d) == Sid(s.sh, d);
      if BeingClosed(s, d) {
        assert BeingClosed(s', d);
      }
    }
  }

  lemma TableAgreesAfterRemove(sh: Shared, c: ControlId, sid: SessionId, how: Exit)
    requires TableAgrees(sh) && IsCurrent(sh.table, sid, c)
    ensures TableAgrees(sh.(table := WithoutCurrent(sh.table, sid, c), exits := sh.exits[c := how]))
  {
  }

  /** Cleanup or kick removes the entry of `c` while holding its gate. */
  lemma RemoveKept(s: State, t: TaskId, sid: SessionId, c: ControlId, how: Exit, pc: Pc)
    requires Inv(s) && AtRemove(s, t, sid, c, how)
    requires c in s.sh.closed || c !in s.sh.activated
    requires LockFits(s.tasks[t].lock, pc)
    requires Knows(Remove(s, sid, c, how).sh, t, Task(s.tasks[t].lock, pc))
    ensures Inv(At(Remove(s, sid, c, how), t, s.tasks[t].lock, pc))
  {
    KnowledgeAfterRemove(s, t, sid, c, how, pc);
    AcceptingAfterRemove(s, t, sid, c, how, pc);
    TableAgreesAfterRemove(s.sh, c, sid, how);
    SameLocks(s, Remove(s, sid, c, how).sh, t, pc);
  }

  function ActivateStep(s: State, c: ControlId, g: GateId): State {
    At(s.(sh := s.sh.(activated := s.sh.activated + {c})), Login(c), Holding(g), InLogin(Leave(true)))
  }

  lemma KnowsDespiteActivate(sh: Shared, c: ControlId, t: TaskId, task: Task)
    requires Knows(sh, t, task) && t != Login(c)
    ensures Knows(sh.(activated := sh.activated + {c}), t, task)
  {
  }

  lemma KnowledgeAfterActivate(s: State, c: ControlId, g: GateId)
    requires Knowledge(s) && Login(c) in s.tasks && s.tasks[Login(c)] == Task(Holding(g), InLogin(Activate))
    ensures Knowledge(ActivateStep(s, c, g))
  {
    var s' := ActivateStep(s, c, g);
    assert LoginKnows(s.sh, c, Holding(g), Activate) by { assert Knows(s.sh, Login(c), s.tasks[Login(c)]); }
    forall t <- s'.tasks
      ensures Knows(s'.sh, t, s'.tasks[t])
    {
      if t != Login(c) {
        KnowsDespiteActivate(s.sh, c, t, s.tasks[t]);
      }
    }
  }

  lemma AcceptingAfterActivate(s: State, c: ControlId, g: GateId)
    requires AcceptingIsCurrent(s) && IsCurrent(s.sh.table, Sid(s.sh, c), c)
    requires Login(c) in s.tasks && s.tasks[Login(c)] == Task(Holding(g), InLogin(Activate))
    ensures AcceptingIsCurrent(ActivateStep(s, c, g))
  {
    var s' := ActivateStep(s, c, g);
    forall d <- s'.sh.activated | d !in s'.sh.closed
      ensures IsCurrent(s'.sh.table, Sid(s'.sh, d), d) || BeingClosed(s', d)
    {
      if d != c && BeingClosed(s, d) {
        assert BeingClosed(s', d);
      }
    }
  }

  lemma ActivateKept(s: State, c: ControlId, g: GateId)
    requires Inv(s) && Login(c) in s.tasks && s.tasks[Login(c)] == Task(Holding(g), InLogin(Activate))
    ensures Inv(ActivateStep(s, c, g))
  {
    assert LoginKnows(s.sh, c, Holding(g), Activate) by { assert Knows(s.sh, Login(c), s.tasks[Login(c)]); }
    KnowledgeAfterActivate(s, c, g);
    AcceptingAfterActivate(s, c, g);
    SameLocks(s, ActivateStep(s, c, g).sh, Login(c), InLogin(Leave(true)));
  }

  // ---------- one step, then every run ----------

  lemma TaskFacts(s: State, t: TaskId)
    requires Inv(s) && t in s.tasks
    ensures Knows(s.sh, t, s.tasks[t]) && LockFits(s.tasks[t].lock, s.tasks[t].pc)
    ensures s.tasks[t].lock.Waiting? ==> s.tasks[t].lock.gate < s.nextGate
    ensures TableAgrees(s.sh)
    ensures forall sid <- s.sh.table :: s.sh.table[sid].gate < s.nextGate
  {
  }

  /** The retry loop of swap_in_locked. */
  lemma SwapStepKept(s: State, c: ControlId)
    requires Inv(s) && Enabled(s, Advance(Login(c), true))
    requires s.tasks[Login(c)].pc.InLogin? && !Installed(s.tasks[Login(c)].pc.login)
    ensures Inv(AdvanceSwap(s, c, s.tasks[Login(c)].lock, s.tasks[Login(c)].pc.login))
  {
    hide Inv, TableAgrees;
    TaskFacts(s, Login(c));
    var t := Login(c);
    var lock := s.tasks[t].lock;
    var pc := s.tasks[t].pc.login;
    var sid := Sid(s.sh, c);
    match pc
    case SwapPeek =>
      if sid in s.sh.table {
        MoveKept(s, t, Waiting(s.sh.table[sid].gate), InLogin(SwapLock));
      } else {
        FreshGateKept(s);
        MoveKept(s.(nextGate := s.nextGate + 1), t, Waiting(s.nextGate), InLogin(SwapLock));
      }
    case SwapLock => AcquireKept(s, t, lock.gate, InLogin(SwapCheck));
    case SwapCheck =>
      if GateIsStale(s.sh.table, sid, lock.gate) {
        MoveKept(s, t, lock, InLogin(SwapBackOff));
      } else {
        InstallKept(s, c, sid, lock.gate);
      }
    case SwapBackOff => DropKept(s, t, lock.gate, InLogin(SwapPeek));
    case _ =>
      assert false;
  }

  /** A task signals a control closed and moves on with its lock. */
  lemma SignalKept(s: State, c: ControlId, t: TaskId, pc: Pc)
    requires Inv(s) && t in s.tasks && !s.tasks[t].lock.Waiting?
    requires LockFits(s.tasks[t].lock, pc) && Knows(Close(s, c).sh, t, Task(s.tasks[t].lock, pc))
    requires s.tasks[t].pc.InLogin? && s.tasks[t].pc.login.CloseOld? ==> s.tasks[t].pc.login.replaced == c
    ensures Inv(At(Close(s, c), t, s.tasks[t].lock, pc))
  {
    hide Inv;
    CloseKept(s, c);
    MoveKept(Close(s, c), t, s.tasks[t].lock, pc);
  }

  lemma CloseOldKept(s: State, c: ControlId, g: GateId, replaced: ControlId)
    requires Inv(s) && Login(c) in s.tasks && s.tasks[Login(c)] == Task(Holding(g), InLogin(CloseOld(replaced)))
    ensures Inv(AdvanceGuarded(s, c, Holding(g), CloseOld(replaced), true))
  {
    hide Inv, TableAgrees;
    TaskFacts(s, Login(c));
    SignalKept(s, replaced, Login(c), InLogin(AwaitOld));
  }

  lemma BeforeAckKept(s: State, c: ControlId, choice: bool)
    requires Inv(s) && Enabled(s, Advance(Login(c), choice))
    requires s.tasks[Login(c)].pc.InLogin? && Guarded(s.tasks[Login(c)].pc.login)
    requires s.tasks[Login(c)].pc.login.CloseOld? || s.tasks[Login(c)].pc.login.AwaitOld? || s.tasks[Login(c)].pc.login.GoOnline?
    ensures Inv(AdvanceGuarded(s, c, s.tasks[Login(c)].lock, s.tasks[Login(c)].pc.login, choice))
  {
    hide Inv, TableAgrees;
    TaskFacts(s, Login(c));
    var lock := s.tasks[Login(c)].lock;
    match s.tasks[Login(c)].pc.login
    case CloseOld(replaced) => CloseOldKept(s, c, lock.gate, replaced);
    case AwaitOld => MoveKept(s, Login(c), lock, InLogin(GoOnline));
    case GoOnline => MoveKept(s, Login(c), lock, InLogin(if choice then Ack else Leave(false)));
  }

  lemma AckKept(s: State, c: ControlId, choice: bool)
    requires Inv(s) && Enabled(s, Advance(Login(c), choice))
    requires s.tasks[Login(c)].pc.InLogin? && Guarded(s.tasks[Login(c)].pc.login)
    requires !(s.tasks[Login(c)].pc.login.CloseOld? || s.tasks[Login(c)].pc.login.AwaitOld? || s.tasks[Login(c)].pc.login.GoOnline?)
    ensures Inv(AdvanceGuarded(s, c, s.tasks[Login(c)].lock, s.tasks[Login(c)].pc.login, choice))
  {
    hide Inv, TableAgrees;
    TaskFacts(s, Login(c));
    var t := Login(c);
    var lock := s.tasks[t].lock;
    var pc := s.tasks[t].pc.login;
    match pc
    case Ack => MoveKept(s, t, lock, InLogin(if choice then Activate else Leave(false)));
    case Activate => ActivateKept(s, c, lock.gate);
    case Leave(acked) => DropKept(s, t, lock.gate, InLogin(if acked then Running else RmPeek(false)));
    case _ =>
      assert false;
  }

  /** From the swap to the drop of the session guard. */
  lemma GuardedStepKept(s: State, c: ControlId, choice: bool)
    requires Inv(s) && Enabled(s, Advance(Login(c), choice))
    requires s.tasks[Login(c)].pc.InLogin? && Guarded(s.tasks[Login(c)].pc.login)
    ensures Inv(AdvanceGuarded(s, c, s.tasks[Login(c)].lock, s.tasks[Login(c)].pc.login, choice))
  {
    if s.tasks[Login(c)].pc.login.CloseOld? || s.tasks[Login(c)].pc.login.AwaitOld? || s.tasks[Login(c)].pc.login.GoOnline? {
      BeforeAckKept(s, c, choice);
    } else {
      AckKept(s, c, choice);
    }
  }

  lemma CleanupKept(s: State, c: ControlId, lock: Lock, acked: bool)
    requires Inv(s) && Login(c) in s.tasks && s.tasks[Login(c)] == Task(lock, InLogin(RmCheck(acked)))
    requires IsCurrent(s.sh.table, Sid(s.sh, c), c)
    ensures Inv(AdvanceEnding(s, c, lock, RmCheck(acked)))
  {
    hide Inv;
    TaskFacts(s, Login(c));
    RemoveKept(s, Login(c), Sid(s.sh, c), c, CleanedUp, InLogin(RmDrop(acked, true)));
  }

  lemma RemovalKept(s: State, c: ControlId)
    requires Inv(s) && Enabled(s, Advance(Login(c), true))
    requires s.tasks[Login(c)].pc.InLogin? && Installed(s.tasks[Login(c)].pc.login) && !Guarded(s.tasks[Login(c)].pc.login)
    requires s.tasks[Login(c)].pc.login.RmPeek? || s.tasks[Login(c)].pc.login.RmLock? || s.tasks[Login(c)].pc.login.RmCheck?
    ensures Inv(AdvanceEnding(s, c, s.tasks[Login(c)].lock, s.tasks[Login(c)].pc.login))
  {
    hide Inv, TableAgrees;
    TaskFacts(s, Login(c));
    var t := Login(c);
    var lock := s.tasks[t].lock;
    var pc := s.tasks[t].pc.login;
    var sid := Sid(s.sh, c);
    match pc
    case RmPeek(acked) =>
      if IsCurrent(s.sh.table, sid, c) {
        MoveKept(s, t, Waiting(s.sh.table[sid].gate), InLogin(RmLock(acked)));
      } else {
        MoveKept(s, t, Free, InLogin(if acked then LoginDone(true, false) else FailSignal(false)));
      }
    case RmLock(acked) => AcquireKept(s, t, lock.gate, InLogin(RmCheck(acked)));
    case RmCheck(acked) =>
      if IsCurrent(s.sh.table, sid, c) {
        CleanupKept(s, c, lock, acked);
      } else {
        MoveKept(s, t, lock, InLogin(RmDrop(acked, false)));
      }
    case _ =>
      assert false;
  }

  lemma ClosingSignalKept(s: State, c: ControlId, pc: LoginPc)
    requires Inv(s) && Login(c) in s.tasks && s.tasks[Login(c)] == Task(Free, InLogin(pc))
    requires pc.EndSignal? || pc.FailSignal?
    ensures Inv(AdvanceEnding(s, c, Free, pc))
  {
    hide Inv, TableAgrees;
    TaskFacts(s, Login(c));
    SignalKept(s, c, Login(c), InLogin(if pc.EndSignal? then RmPeek(true) else LoginDone(false, pc.won)));
  }

  lemma CleanupDropKept(s: State, c: ControlId, g: GateId, pc: LoginPc)
    requires Inv(s) && Login(c) in s.tasks && s.tasks[Login(c)] == Task(Holding(g), InLogin(pc)) && pc.RmDrop?
    ensures Inv(AdvanceEnding(s, c, Holding(g), pc))
  {
    hide Inv, TableAgrees;
    TaskFacts(s, Login(c));
    DropKept(s, Login(c), g, InLogin(if pc.acked then LoginDone(true, pc.won) else FailSignal(pc.won)));
  }

  lemma SignalsKept(s: State, c: ControlId)
    requires Inv(s) && Enabled(s, Advance(Login(c), true))
    requires s.tasks[Login(c)].pc.InLogin? && Installed(s.tasks[Login(c)].pc.login) && !Guarded(s.tasks[Login(c)].pc.login)
    requires !(s.tasks[Login(c)].pc.login.RmPeek? || s.tasks[Login(c)].pc.login.RmLock? || s.tasks[Login(c)].pc.login.RmCheck?)
    ensures Inv(AdvanceEnding(s, c, s.tasks[Login(c)].lock, s.tasks[Login(c)].pc.login))
  {
    hide Inv, TableAgrees;
    TaskFacts(s, Login(c));
    var lock := s.tasks[Login(c)].lock;
    var pc := s.tasks[Login(c)].pc.login;
    match pc
    case Running => MoveKept(s, Login(c), Free, InLogin(EndSignal));
    case RmDrop(_, _) => CleanupDropKept(s, c, lock.gate, pc);
    case _ => ClosingSignalKept(s, c, pc);
  }

  /** The connection, its end, and remove_if_current. */
  lemma EndingStepKept(s: State, c: ControlId)
    requires Inv(s) && Enabled(s, Advance(Login(c), true))
    requires s.tasks[Login(c)].pc.InLogin? && Installed(s.tasks[Login(c)].pc.login) && !Guarded(s.tasks[Login(c)].pc.login)
    ensures Inv(AdvanceEnding(s, c, s.tasks[Login(c)].lock, s.tasks[Login(c)].pc.login))
  {
    if s.tasks[Login(c)].pc.login.RmPeek? || s.tasks[Login(c)].pc.login.RmLock? || s.tasks[Login(c)].pc.login.RmCheck? {
      RemovalKept(s, c);
    } else {
      SignalsKept(s, c);
    }
  }

  lemma LoginStepKept(s: State, c: ControlId, choice: bool)
    requires Inv(s) && Enabled(s, Advance(Login(c), choice))
    ensures Inv(Apply(s, Advance(Login(c), choice)))
  {
    hide Inv;
    TaskFacts(s, Login(c));
    if !Installed(s.tasks[Login(c)].pc.login) {
      SwapStepKept(s, c);
    } else if Guarded(s.tasks[Login(c)].pc.login) {
      GuardedStepKept(s, c, choice);
    } else {
      EndingStepKept(s, c);
    }
  }

  lemma KickRemoveKept(s: State, k: nat, sid: SessionId, c: ControlId, lock: Lock)
    requires Inv(s) && Kick(k) in s.tasks && s.tasks[Kick(k)] == Task(lock, InKick(sid, c, KickRemove))
    ensures Inv(Apply(s, Advance(Kick(k), true)))
  {
    hide Inv;
    TaskFacts(s, Kick(k));
    RemoveKept(s, Kick(k), sid, c, KickedBy(k), InKick(sid, c, KickDrop(true)));
  }

  lemma KickStepKept(s: State, k: nat, choice: bool)
    requires Inv(s) && Enabled(s, Advance(Kick(k), choice))
    ensures Inv(Apply(s, Advance(Kick(k), choice)))
  {
    hide Inv, TableAgrees;
    TaskFacts(s, Kick(k));
    var t := Kick(k);
    var lock := s.tasks[t].lock;
    var InKick(sid, c, pc) := s.tasks[t].pc;
    match pc
    case KickPeek =>
      if sid in s.sh.table {
        var e := s.sh.table[sid];
        MoveKept(s, t, Waiting(e.gate), InKick(sid, e.control, KickLock));
      } else {
        MoveKept(s, t, Free, InKick(sid, c, KickDone(false)));
      }
    case KickLock => AcquireKept(s, t, lock.gate, InKick(sid, c, KickCheck));
    case KickCheck =>
      MoveKept(s, t, lock, InKick(sid, c, if IsCurrent(s.sh.table, sid, c) then KickClose else KickDrop(false)));
    case KickClose =>
      SignalKept(s, c, t, InKick(sid, c, KickRemove));
    case KickRemove => KickRemoveKept(s, k, sid, c, lock);
    case KickDrop(won) => DropKept(s, t, lock.gate, InKick(sid, c, KickDone(won)));
    case KickDone(_) =>
  }

  lemma LookupStepKept(s: State, q: nat, choice: bool)
    requires Inv(s) && Enabled(s, Advance(Lookup(q), choice))
    ensures Inv(Apply(s, Advance(Lookup(q), choice)))
  {
    hide Inv;
    TaskFacts(s, Lookup(q));
    var t := Lookup(q);
    var lock := s.tasks[t].lock;
    var InLookup(sid, c, pc) := s.tasks[t].pc;
    match pc
    case FindPeek =>
      if sid in s.sh.table {
        var e := s.sh.table[sid];
        MoveKept(s, t, Waiting(e.gate), InLookup(sid, e.control, FindLock));
      } else {
        MoveKept(s, t, Free, InLookup(sid, c, FindDone(false)));
      }
    case FindLock => AcquireKept(s, t, lock.gate, InLookup(sid, c, FindCheck));
    case FindCheck =>
      MoveKept(s, t, lock, InLookup(sid, c, FindDrop(IsCurrent(s.sh.table, sid, c) && Accepting(s.sh, c))));
    case FindDrop(found) => DropKept(s, t, lock.gate, InLookup(sid, c, FindDone(found)));
    case FindDone(_) =>
  }

  /** Every step of every task keeps the invariant. */
  lemma StepKept(s: State, step: Step)
    requires Inv(s) && Enabled(s, step)
    ensures Inv(Apply(s, step))
  {
    match step
    case StartLogin(sid) => SpawnLoginKept(s, sid);
    case StartKick(k, sid) => SpawnKickKept(s, k, sid);
    case StartLookup(q, sid) => SpawnLookupKept(s, q, sid);
    case CloseAnytime(c) => CloseKept(s, c);
    case Advance(Login(c), choice) => LoginStepKept(s, c, choice);
    case Advance(Kick(k), choice) => KickStepKept(s, k, choice);
    case Advance(Lookup(q), choice) => LookupStepKept(s, q, choice);
  }

  lemma {:induction false} RunKept(s: State, steps: seq<Step>)
    requires Inv(s) && Runs(s, steps)
    ensures Inv(After(s, steps))
    decreases |steps|
  {
    if steps != [] {
      StepKept(s, steps[0]);
      RunKept(Apply(s, steps[0]), steps[1..]);
    }
  }
}
