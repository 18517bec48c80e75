/** The safety results of the session protocol, for every interleaving from the empty server. */
module SessionTheorems {
  import opened Wrappers
  import opened SessionTable
  import opened SessionProtocol
  import opened SessionSafety

  // ---------- one accepting control a session ----------

  lemma AcceptingPairIsOne(s: State, c: ControlId, d: ControlId)
    requires Inv(s) && Accepting(s.sh, c) && Accepting(s.sh, d) && Sid(s.sh, c) == Sid(s.sh, d)
    ensures c == d
  {
    if !IsCurrent(s.sh.table, Sid(s.sh, c), c) {
      ReplacedByCurrent(s, c);
      if IsCurrent(s.sh.table, Sid(s.sh, d), d) {
        CloserIsNotActive(s, s.sh.exits[c].next);
      } else {
        ReplacedByCurrent(s, d);
      }
    } else if !IsCurrent(s.sh.table, Sid(s.sh, d), d) {
      ReplacedByCurrent(s, d);
      CloserIsNotActive(s, s.sh.exits[d].next);
    }
  }

  /** The login that closes a control is itself the current one of the session. */
  lemma ReplacedByCurrent(s: State, c: ControlId)
    requires Inv(s) && BeingClosed(s, c)
    ensures IsCurrent(s.sh.table, Sid(s.sh, c), s.sh.exits[c].next)
    ensures s.tasks[Login(s.sh.exits[c].next)].pc == InLogin(CloseOld(c))
  {
    hide Inv;
    TaskFacts(s, Login(s.sh.exits[c].next));
  }

  lemma CloserIsNotActive(s: State, d: ControlId)
    requires Inv(s) && Login(d) in s.tasks
    requires s.tasks[Login(d)].pc.InLogin? && s.tasks[Login(d)].pc.login.CloseOld?
    ensures d !in s.sh.activated
  {
    hide Inv;
    TaskFacts(s, Login(d));
  }

  /** In every reachable state, at most one control of a session is activated and not closed. */
  lemma AtMostOneAccepting(steps: seq<Step>)
    requires Runs(Start, steps)
    ensures var sh := After(Start, steps).sh;
            forall c <- sh.activated, d <- sh.activated ::
              Accepting(sh, c) && Accepting(sh, d) && Sid(sh, c) == Sid(sh, d) ==> c == d
  {
    RunKept(Start, steps);
    var s := After(Start, steps);
    forall c <- s.sh.activated, d <- s.sh.activated
      | Accepting(s.sh, c) && Accepting(s.sh, d) && Sid(s.sh, c) == Sid(s.sh, d)
      ensures c == d
    {
      AcceptingPairIsOne(s, c, d);
    }
  }

  /** send_login_ok: the response is being written, or has been and the control is not yet active. */
  predicate IsAcknowledging(s: State, c: ControlId) {
    Login(c) in s.tasks && (s.tasks[Login(c)].pc == InLogin(Ack) || s.tasks[Login(c)].pc == InLogin(Activate))
  }

  lemma SilentBeforeAck(s: State, c: ControlId, d: ControlId)
    requires Inv(s) && IsAcknowledging(s, c)
    requires Sid(s.sh, d) == Sid(s.sh, c)
    ensures !Accepting(s.sh, d)
  {
    TaskFacts(s, Login(c));
    if Accepting(s.sh, d) && !IsCurrent(s.sh.table, Sid(s.sh, d), d) {
      ReplacedByCurrent(s, d);
    }
  }

  /** A login is acknowledged only while no control of its session accepts: the replaced one,
      if any, has been signalled closed by then. */
  lemma AckAfterOldIsClosed(steps: seq<Step>)
    requires Runs(Start, steps)
    ensures var s := After(Start, steps);
            forall c <- s.sh.sidOf, d <- s.sh.activated ::
              IsAcknowledging(s, c) && Sid(s.sh, d) == Sid(s.sh, c) ==> d in s.sh.closed
  {
    RunKept(Start, steps);
    var s := After(Start, steps);
    forall c <- s.sh.sidOf, d <- s.sh.activated
      | IsAcknowledging(s, c) && Sid(s.sh, d) == Sid(s.sh, c)
      ensures d in s.sh.closed
    {
      SilentBeforeAck(s, c, d);
    }
  }

  predicate AtFindCheck(s: State, q: nat) {
    Lookup(q) in s.tasks && s.tasks[Lookup(q)].pc.InLookup? && s.tasks[Lookup(q)].pc.lookup.FindCheck?
    && s.tasks[Lookup(q)].lock.Holding?
  }

  predicate Finds(s: State, q: nat)
    requires AtFindCheck(s, q)
  {
    Apply(s, Advance(Lookup(q), true)).tasks[Lookup(q)].pc == s.tasks[Lookup(q)].pc.(lookup := FindDrop(true))
  }

  lemma AcceptingTargetIsCurrent(s: State, q: nat)
    requires Inv(s) && AtFindCheck(s, q) && Accepting(s.sh, s.tasks[Lookup(q)].pc.target)
    ensures IsCurrent(s.sh.table, s.tasks[Lookup(q)].pc.sid, s.tasks[Lookup(q)].pc.target)
  {
    var c := s.tasks[Lookup(q)].pc.target;
    TaskFacts(s, Lookup(q));
    if BeingClosed(s, c) {
      TaskFacts(s, Login(s.sh.exits[c].next));
      assert false;
    }
  }

  /** Under the gate, lookup_accepting hands out the control it peeked exactly when that
      control accepts; and whenever some control of the session accepts, it is found if and
      only if it is the peeked one. */
  lemma LookupFindsTheAccepting(steps: seq<Step>, q: nat)
    requires Runs(Start, steps)
    ensures var s := After(Start, steps);
            AtFindCheck(s, q) ==>
              var pc := s.tasks[Lookup(q)].pc;
              && (Finds(s, q) <==> Accepting(s.sh, pc.target))
              && forall d <- s.sh.activated ::
                   Accepting(s.sh, d) && Sid(s.sh, d) == pc.sid ==> (Finds(s, q) <==> d == pc.target)
  {
    RunKept(Start, steps);
    var s := After(Start, steps);
    if AtFindCheck(s, q) {
      LookupResult(s, q);
    }
  }

  lemma LookupResult(s: State, q: nat)
    requires Inv(s) && AtFindCheck(s, q)
    ensures var pc := s.tasks[Lookup(q)].pc;
            && (Finds(s, q) <==> Accepting(s.sh, pc.target))
            && forall d <- s.sh.activated ::
                 Accepting(s.sh, d) && Sid(s.sh, d) == pc.sid ==> (Finds(s, q) <==> d == pc.target)
  {
    hide Inv;
    TaskFacts(s, Lookup(q));
    var pc := s.tasks[Lookup(q)].pc;
    if Accepting(s.sh, pc.target) {
      AcceptingTargetIsCurrent(s, q);
      forall d <- s.sh.activated | Accepting(s.sh, d) && Sid(s.sh, d) == pc.sid
        ensures d == pc.target
      {
        AcceptingPairIsOne(s, d, pc.target);
      }
    }
  }

  // ---------- the gate protects the entry ----------

  /** While a login has its guard, the entry of its session is its own. */
  lemma EntryStaysWhileGuarded(steps: seq<Step>)
    requires Runs(Start, steps)
    ensures var s := After(Start, steps);
            forall c <- s.sh.sidOf ::
              Login(c) in s.tasks && s.tasks[Login(c)].pc.InLogin? && Guarded(s.tasks[Login(c)].pc.login) ==>
                && s.tasks[Login(c)].lock.Holding?
                && Get(s.sh.table, Sid(s.sh, c)) == Some(Entry(c, s.tasks[Login(c)].lock.gate))
  {
    RunKept(Start, steps);
    var s := After(Start, steps);
    forall c <- s.sh.sidOf
      | Login(c) in s.tasks && s.tasks[Login(c)].pc.InLogin? && Guarded(s.tasks[Login(c)].pc.login)
      ensures s.tasks[Login(c)].lock.Holding?
      ensures Get(s.sh.table, Sid(s.sh, c)) == Some(Entry(c, s.tasks[Login(c)].lock.gate))
    {
      TaskFacts(s, Login(c));
    }
  }

  /** What a step of a login or a kick does to the table and to the recorded exits. */
  ghost predicate TouchesUnderGate(s: State, s': State, t: TaskId) {
    forall sid <- s.sh.table :: Get(s'.sh.table, sid) != Get(s.sh.table, sid) ==>
      t in s.tasks && s.tasks[t].lock == Holding(s.sh.table[sid].gate)
  }

  ghost predicate KeepsExits(s: State, s': State) {
    forall c <- s.sh.exits :: c in s'.sh.exits && s'.sh.exits[c] == s.sh.exits[c]
  }

  /** Only this task moves, and no control changes its session or its history. */
  ghost predicate OneTask(s: State, s': State, t: TaskId) {
    && t in s'.tasks && s'.tasks == s.tasks[t := s'.tasks[t]]
    && s'.sh.sidOf == s.sh.sidOf && s.sh.gateOf.Keys <= s'.sh.gateOf.Keys
  }

  lemma SwapIsOneTask(s: State, c: ControlId, lock: Lock, pc: LoginPc)
    requires Login(c) in s.tasks
    ensures OneTask(s, AdvanceSwap(s, c, lock, pc), Login(c))
  {
    assert s.tasks[Login(c) := s.tasks[Login(c)]] == s.tasks;
  }

  lemma GuardedIsOneTask(s: State, c: ControlId, lock: Lock, pc: LoginPc, choice: bool)
    requires Login(c) in s.tasks
    ensures OneTask(s, AdvanceGuarded(s, c, lock, pc, choice), Login(c))
  {
    assert s.tasks[Login(c) := s.tasks[Login(c)]] == s.tasks;
  }

  lemma EndingIsOneTask(s: State, c: ControlId, lock: Lock, pc: LoginPc)
    requires Login(c) in s.tasks
    ensures OneTask(s, AdvanceEnding(s, c, lock, pc), Login(c))
  {
    assert s.tasks[Login(c) := s.tasks[Login(c)]] == s.tasks;
  }

  lemma KickIsOneTask(s: State, t: TaskId, sid: SessionId, c: ControlId, lock: Lock, pc: KickPc)
    requires t in s.tasks
    ensures OneTask(s, AdvanceKick(s, t, sid, c, lock, pc), t)
  {
    assert s.tasks[t := s.tasks[t]] == s.tasks;
  }

  lemma LookupIsOneTask(s: State, t: TaskId, sid: SessionId, c: ControlId, lock: Lock, pc: LookupPc)
    requires t in s.tasks
    ensures OneTask(s, AdvanceLookup(s, t, sid, c, lock, pc), t)
  {
    assert s.tasks[t := s.tasks[t]] == s.tasks;
  }

  lemma AdvanceIsOneTask(s: State, t: TaskId, choice: bool)
    requires Enabled(s, Advance(t, choice))
    ensures OneTask(s, Apply(s, Advance(t, choice)), t)
  {
    hide AdvanceSwap, AdvanceGuarded, AdvanceEnding, AdvanceKick, AdvanceLookup, OneTask;
    var task := s.tasks[t];
    match task.pc
    case InLogin(pc) =>
      match t {
        case Login(c) =>
          SwapIsOneTask(s, c, task.lock, pc);
          GuardedIsOneTask(s, c, task.lock, pc, choice);
          EndingIsOneTask(s, c, task.lock, pc);
        case _ => NothingIsOneTask(s, t);
      }
    case InKick(sid, c, pc) => KickIsOneTask(s, t, sid, c, task.lock, pc);
    case InLookup(sid, c, pc) => LookupIsOneTask(s, t, sid, c, task.lock, pc);
  }

  lemma NothingIsOneTask(s: State, t: TaskId)
    requires t in s.tasks
    ensures OneTask(s, s, t)
  {
    assert s.tasks[t := s.tasks[t]] == s.tasks;
  }

  lemma GuardedTouches(s: State, c: ControlId, lock: Lock, pc: LoginPc, choice: bool)
    ensures var s' := AdvanceGuarded(s, c, lock, pc, choice);
            s'.sh.table == s.sh.table && s'.sh.exits == s.sh.exits
  {
  }

  lemma SwapTouches(s: State, c: ControlId)
    requires Inv(s) && Enabled(s, Advance(Login(c), true))
    requires s.tasks[Login(c)].pc.InLogin? && !Installed(s.tasks[Login(c)].pc.login)
    ensures var s' := AdvanceSwap(s, c, s.tasks[Login(c)].lock, s.tasks[Login(c)].pc.login);
            TouchesUnderGate(s, s', Login(c)) && KeepsExits(s, s')
  {
    hide Inv;
    TaskFacts(s, Login(c));
  }

  lemma EndingTouches(s: State, c: ControlId)
    requires Inv(s) && Enabled(s, Advance(Login(c), true)) && s.tasks[Login(c)].pc.InLogin?
    ensures var s' := AdvanceEnding(s, c, s.tasks[Login(c)].lock, s.tasks[Login(c)].pc.login);
            TouchesUnderGate(s, s', Login(c)) && KeepsExits(s, s')
  {
    hide Inv;
    TaskFacts(s, Login(c));
  }

  lemma LoginTouches(s: State, c: ControlId, choice: bool)
    requires Inv(s) && Enabled(s, Advance(Login(c), choice))
    ensures var s' := Apply(s, Advance(Login(c), choice));
            TouchesUnderGate(s, s', Login(c)) && KeepsExits(s, s')
  {
    TaskFacts(s, Login(c));
    hide Inv, AdvanceSwap, AdvanceGuarded, AdvanceEnding, TableAgrees, LockFits;
    var task := s.tasks[Login(c)];
    if !Installed(task.pc.login) {
      SwapTouches(s, c);
    } else if Guarded(task.pc.login) {
      GuardedTouches(s, c, task.lock, task.pc.login, choice);
    } else {
      EndingTouches(s, c);
    }
  }

  lemma KickTouches(s: State, k: nat, choice: bool)
    requires Inv(s) && Enabled(s, Advance(Kick(k), choice))
    ensures var s' := Apply(s, Advance(Kick(k), choice));
            TouchesUnderGate(s, s', Kick(k)) && KeepsExits(s, s')
  {
    hide Inv;
    TaskFacts(s, Kick(k));
  }

  lemma LookupTouches(s: State, q: nat, choice: bool)
    requires Inv(s) && Enabled(s, Advance(Lookup(q), choice))
    ensures Apply(s, Advance(Lookup(q), choice)).sh == s.sh
  {
    hide Inv;
    TaskFacts(s, Lookup(q));
  }

  lemma StepTouches(s: State, step: Step)
    requires Inv(s) && Enabled(s, step)
    ensures var s' := Apply(s, step);
            && (step.Advance? ==> TouchesUnderGate(s, s', step.task))
            && (!step.Advance? ==> s'.sh.table == s.sh.table)
            && KeepsExits(s, s')
  {
    hide Inv;
    match step
    case Advance(Login(c), choice) => LoginTouches(s, c, choice);
    case Advance(Kick(k), choice) => KickTouches(s, k, choice);
    case Advance(Lookup(q), choice) => LookupTouches(s, q, choice);
    case _ =>
  }

  /** An entry is replaced or removed only by the task that holds the gate stored in it. */
  lemma EntryChangesUnderItsGate(steps: seq<Step>, step: Step)
    requires Runs(Start, steps) && Enabled(After(Start, steps), step)
    ensures var s := After(Start, steps);
            forall sid <- s.sh.table :: Get(Apply(s, step).sh.table, sid) != Get(s.sh.table, sid) ==>
              step.Advance? && step.task in s.tasks && s.tasks[step.task].lock == Holding(s.sh.table[sid].gate)
  {
    hide Inv;
    RunKept(Start, steps);
    StepTouches(After(Start, steps), step);
  }

  // ---------- every installed control leaves the table once ----------

  /** Once a control has left the table, the way it left is settled and it never comes back. */
  lemma {:induction false} ExitIsFinal(s: State, steps: seq<Step>, c: ControlId)
    requires Inv(s) && Runs(s, steps) && c in s.sh.exits
    ensures var s' := After(s, steps);
            && c in s'.sh.exits && s'.sh.exits[c] == s.sh.exits[c]
            && forall sid :: !IsCurrent(s'.sh.table, sid, c)
    decreases |steps|
  {
    hide Inv;
    if steps == [] {
      NotCurrentAfterExit(s, c);
    } else {
      StepTouches(s, steps[0]);
      StepKept(s, steps[0]);
      ExitIsFinal(Apply(s, steps[0]), steps[1..], c);
    }
  }

  lemma NotCurrentAfterExit(s: State, c: ControlId)
    requires Inv(s) && c in s.sh.exits
    ensures forall sid :: !IsCurrent(s.sh.table, sid, c)
  {
  }

  predicate CleanupWon(s: State, c: ControlId) {
    Login(c) in s.tasks && s.tasks[Login(c)].pc.InLogin? && WonCleanup(s.tasks[Login(c)].pc.login)
  }

  predicate KickWon(s: State, k: nat, c: ControlId) {
    Kick(k) in s.tasks && s.tasks[Kick(k)].pc.InKick? && WonKick(s.tasks[Kick(k)].pc.kick) && s.tasks[Kick(k)].pc.target == c
  }

  predicate WasReplaced(s: State, c: ControlId) {
    c in s.sh.exits && s.sh.exits[c].ReplacedBy?
  }

  lemma WinnersAgree(s: State, c: ControlId)
    requires Inv(s)
    ensures CleanupWon(s, c) <==> c in s.sh.exits && s.sh.exits[c] == CleanedUp
    ensures forall k :: KickWon(s, k, c) <==> c in s.sh.exits && s.sh.exits[c] == KickedBy(k)
  {
    if Login(c) in s.tasks {
      TaskFacts(s, Login(c));
    }
    forall k
      ensures KickWon(s, k, c) <==> c in s.sh.exits && s.sh.exits[c] == KickedBy(k)
    {
      if Kick(k) in s.tasks {
        TaskFacts(s, Kick(k));
      }
    }
  }

  /** Of a replacement, the connection-end cleanup and any number of kicks, at most one takes a
      control out of the table; and when its login has run to its end, exactly one has. */
  lemma OneWinner(steps: seq<Step>, c: ControlId)
    requires Runs(Start, steps)
    ensures var s := After(Start, steps);
            && !(CleanupWon(s, c) && WasReplaced(s, c))
            && (forall k :: KickWon(s, k, c) ==> !CleanupWon(s, c) && !WasReplaced(s, c))
            && (forall k, m :: KickWon(s, k, c) && KickWon(s, m, c) ==> k == m)
            && (Login(c) in s.tasks && Finished(s.tasks[Login(c)].pc) ==>
                  CleanupWon(s, c) || WasReplaced(s, c) || exists k :: KickWon(s, k, c))
  {
    hide Inv;
    RunKept(Start, steps);
    var s := After(Start, steps);
    WinnersAgree(s, c);
    if Login(c) in s.tasks && Finished(s.tasks[Login(c)].pc) {
      TaskFacts(s, Login(c));
      assert c in s.sh.exits;
      if s.sh.exits[c].KickedBy? {
        assert KickWon(s, s.sh.exits[c].k, c);
      }
    }
  }

  // ---------- no deadlock ----------

  lemma HolderFacts(s: State, g: GateId)
    requires Inv(s) && g in s.holder
    ensures s.holder[g] in s.tasks && s.tasks[s.holder[g]].lock == Holding(g)
  {
  }

  /** Every unfinished task can move, or the holder of the gate it awaits can. */
  lemma NoDeadlock(steps: seq<Step>, t: TaskId, choice: bool)
    requires Runs(Start, steps)
    ensures var s := After(Start, steps);
            t in s.tasks && !Finished(s.tasks[t].pc) ==>
              || Enabled(s, Advance(t, choice))
              || (s.tasks[t].lock.Waiting? && s.tasks[t].lock.gate in s.holder
                  && Enabled(s, Advance(s.holder[s.tasks[t].lock.gate], choice)))
  {
    hide Inv;
    RunKept(Start, steps);
    var s := After(Start, steps);
    if t in s.tasks && s.tasks[t].lock.Waiting? && s.tasks[t].lock.gate in s.holder {
      HolderFacts(s, s.tasks[t].lock.gate);
      TaskFacts(s, s.holder[s.tasks[t].lock.gate]);
    }
  }

  lemma TaskMoves(s: State, t: TaskId, choice: bool)
    requires Enabled(s, Advance(t, choice))
    requires LockFits(s.tasks[t].lock, s.tasks[t].pc) && (t.Login? <==> s.tasks[t].pc.InLogin?)
    ensures t in Apply(s, Advance(t, choice)).tasks && Apply(s, Advance(t, choice)).tasks[t] != s.tasks[t]
  {
  }

  /** A step of a task always moves that task: no counter is stuck. */
  lemma StepsMove(steps: seq<Step>, t: TaskId, choice: bool)
    requires Runs(Start, steps) && Enabled(After(Start, steps), Advance(t, choice))
    ensures var s := After(Start, steps);
            var s' := Apply(s, Advance(t, choice));
            t in s'.tasks && s'.tasks[t] != s.tasks[t]
  {
    hide Inv;
    RunKept(Start, steps);
    TaskFacts(After(Start, steps), t);
    TaskMoves(After(Start, steps), t, choice);
  }
}
