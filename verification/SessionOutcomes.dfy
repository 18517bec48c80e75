/** What kicks, lookups and logins bring about: what the answer of each says over every run, and what
    each does when nobody else acts, in terms of the table and the flags. */
module SessionOutcomes {
  import opened Wrappers
  import opened SessionTable
  import opened SessionProtocol
  import opened SessionSafety
  import opened SessionTheorems

  lemma StartIsSound(steps: seq<Step>)
    requires Runs(Start, steps)
    ensures Inv(After(Start, steps))
  {
    RunKept(Start, steps);
  }

  lemma RunsFirst(s: State, step: Step, rest: seq<Step>)
    requires Enabled(s, step) && Runs(Apply(s, step), rest)
    ensures Runs(s, [step] + rest) && After(s, [step] + rest) == After(Apply(s, step), rest)
  {
    assert ([step] + rest)[1..] == rest;
  }

  lemma {:induction false} RunsAppend(s: State, a: seq<Step>, b: seq<Step>)
    requires Runs(s, a) && Runs(After(s, a), b)
    ensures Runs(s, a + b) && After(s, a + b) == After(After(s, a), b)
    decreases |a|
  {
    if a == [] {
      assert a + b == b;
    } else {
      RunsAppend(Apply(s, a[0]), a[1..], b);
      assert (a + b)[0] == a[0] && (a + b)[1..] == a[1..] + b;
    }
  }

  /** Only this task moves. */
  predicate OwnMoves(steps: seq<Step>, t: TaskId) {
    forall step <- steps :: step.Advance? && step.task == t
  }

  // ---------- a kick that holds its gate ----------

  /** The kick has its gate, and has not looked at the table yet. */
  predicate KickDecides(s: State, k: nat) {
    Kick(k) in s.tasks && s.tasks[Kick(k)].pc.InKick? && s.tasks[Kick(k)].pc.kick == KickCheck && s.tasks[Kick(k)].lock.Holding?
  }

  predicate KickOver(s: State, k: nat) {
    Kick(k) in s.tasks && s.tasks[Kick(k)].pc.InKick? && s.tasks[Kick(k)].pc.kick.KickDone?
  }

  /** The kick is where it has to be if its target was, or was not, current when it got its gate. */
  ghost predicate KickOnCourse(s: State, k: nat, sid: SessionId, target: ControlId, was: bool) {
    && Kick(k) in s.tasks && s.tasks[Kick(k)].pc.InKick?
    && s.tasks[Kick(k)].pc.sid == sid && s.tasks[Kick(k)].pc.target == target
    && match s.tasks[Kick(k)].pc.kick
       case KickCheck => s.tasks[Kick(k)].lock.Holding? && (was <==> IsCurrent(s.sh.table, sid, target))
       case KickClose => was
       case KickRemove => was && target in s.sh.closed
       case KickDrop(won) => was == won && (won ==> target in s.sh.closed)
       case KickDone(won) => was == won && (won ==> target in s.sh.closed)
       case _ => false
  }

  lemma KickStaysOnCourse(s: State, k: nat, sid: SessionId, target: ControlId, lock: Lock, pc: KickPc, was: bool)
    requires s.tasks[Kick(k) := Task(lock, InKick(sid, target, pc))] == s.tasks && Kick(k) in s.tasks
    requires KickOnCourse(s, k, sid, target, was) && lock.Holding? && !pc.KickDone?
    requires pc.KickRemove? ==> IsCurrent(s.sh.table, sid, target)
    ensures KickOnCourse(AdvanceKick(s, Kick(k), sid, target, lock, pc), k, sid, target, was)
  {
    match pc
    case KickCheck =>
    case KickClose =>
    case KickRemove =>
    case KickDrop(_) =>
  }

  lemma OwnKickStep(s: State, k: nat, choice: bool, sid: SessionId, target: ControlId, was: bool)
    requires Inv(s) && KickOnCourse(s, k, sid, target, was) && Enabled(s, Advance(Kick(k), choice))
    ensures KickOnCourse(Apply(s, Advance(Kick(k), choice)), k, sid, target, was)
  {
    TaskFacts(s, Kick(k));
    hide Inv, TableAgrees, AdvanceKick;
    KickStaysOnCourse(s, k, sid, target, s.tasks[Kick(k)].lock, s.tasks[Kick(k)].pc.kick, was);
  }

  /** What the others do does not change whether the target is current. */
  lemma TargetStays(s: State, step: Step, k: nat)
    requires Inv(s) && Enabled(s, step) && KickDecides(s, k) && !(step.Advance? && step.task == Kick(k))
    ensures var pc := s.tasks[Kick(k)].pc;
            IsCurrent(Apply(s, step).sh.table, pc.sid, pc.target) <==> IsCurrent(s.sh.table, pc.sid, pc.target)
  {
    TaskFacts(s, Kick(k));
    StepTouches(s, step);
    StepKept(s, step);
    var pc := s.tasks[Kick(k)].pc;
    if IsCurrent(s.sh.table, pc.sid, pc.target) {
      if step.Advance? && s.tasks[step.task].lock == s.tasks[Kick(k)].lock {
        OneHolder(s, step.task, Kick(k));
      }
      hide Inv, Apply;
    } else {
      OutIsRecorded(s, pc.target);
      hide Inv;
      NotCurrentAfterExit(Apply(s, step), pc.target);
    }
  }

  lemma OneHolder(s: State, t: TaskId, u: TaskId)
    requires Inv(s) && t in s.tasks && u in s.tasks && s.tasks[t].lock.Holding? && s.tasks[t].lock == s.tasks[u].lock
    ensures t == u
  {
  }

  lemma OutIsRecorded(s: State, c: ControlId)
    requires Inv(s) && c in s.sh.gateOf && !IsCurrent(s.sh.table, Sid(s.sh, c), c)
    ensures c in s.sh.exits
  {
  }

  lemma CloseGrows(s: State, step: Step)
    requires Enabled(s, step)
    ensures s.sh.closed <= Apply(s, step).sh.closed
  {
    hide AdvanceSwap, AdvanceGuarded, AdvanceEnding, AdvanceKick, AdvanceLookup;
    match step
    case Advance(t, choice) =>
      var task := s.tasks[t];
      match task.pc {
        case InLogin(pc) =>
          if t.Login? {
            SwapCloses(s, t.control, task.lock, pc);
            GuardedCloses(s, t.control, task.lock, pc, choice);
            EndingCloses(s, t.control, task.lock, pc);
          }
        case InKick(sid, c, pc) => KickCloses(s, t, sid, c, task.lock, pc);
        case InLookup(sid, c, pc) => LookupCloses(s, t, sid, c, task.lock, pc);
      }
    case _ =>
  }

  lemma SwapCloses(s: State, c: ControlId, lock: Lock, pc: LoginPc)
    ensures AdvanceSwap(s, c, lock, pc).sh.closed == s.sh.closed && AdvanceSwap(s, c, lock, pc).sh.sidOf == s.sh.sidOf
  {
  }

  lemma GuardedCloses(s: State, c: ControlId, lock: Lock, pc: LoginPc, choice: bool)
    ensures var sh := AdvanceGuarded(s, c, lock, pc, choice).sh;
            s.sh.closed <= sh.closed <= s.sh.closed + (if pc.CloseOld? then {pc.replaced} else {}) && sh.sidOf == s.sh.sidOf
  {
  }

  lemma EndingCloses(s: State, c: ControlId, lock: Lock, pc: LoginPc)
    ensures var sh := AdvanceEnding(s, c, lock, pc).sh;
            s.sh.closed <= sh.closed <= s.sh.closed + {c} && sh.sidOf == s.sh.sidOf
  {
  }

  lemma KickCloses(s: State, t: TaskId, sid: SessionId, c: ControlId, lock: Lock, pc: KickPc)
    ensures var sh := AdvanceKick(s, t, sid, c, lock, pc).sh;
            s.sh.closed <= sh.closed <= s.sh.closed + (if pc.KickClose? then {c} else {}) && sh.sidOf == s.sh.sidOf
  {
  }

  lemma LookupCloses(s: State, t: TaskId, sid: SessionId, c: ControlId, lock: Lock, pc: LookupPc)
    ensures AdvanceLookup(s, t, sid, c, lock, pc).sh == s.sh
  {
  }

  /** A step leaves the other tasks as they are. */
  lemma OthersAsTheyWere(s: State, step: Step, t: TaskId)
    requires Inv(s) && Enabled(s, step) && t in s.tasks && !(step.Advance? && step.task == t)
    ensures t in Apply(s, step).tasks && Apply(s, step).tasks[t] == s.tasks[t]
  {
    match step
    case StartLogin(_) => GenerationIsFresh(s);
    case Advance(u, choice) =>
      AdvanceIsOneTask(s, u, choice);
      hide Apply;
    case _ =>
  }

  lemma KickStepOnCourse(s: State, step: Step, k: nat, sid: SessionId, target: ControlId, was: bool)
    requires Inv(s) && KickOnCourse(s, k, sid, target, was) && Enabled(s, step)
    ensures KickOnCourse(Apply(s, step), k, sid, target, was)
  {
    if step.Advance? && step.task == Kick(k) {
      OwnKickStep(s, k, step.choice, sid, target, was);
    } else {
      OthersAsTheyWere(s, step, Kick(k));
      CloseGrows(s, step);
      if s.tasks[Kick(k)].pc.kick.KickCheck? {
        TargetStays(s, step, k);
      }
      hide Inv, Apply;
    }
  }

  lemma {:induction false} KickRunOnCourse(s: State, steps: seq<Step>, k: nat, sid: SessionId, target: ControlId, was: bool)
    requires Inv(s) && KickOnCourse(s, k, sid, target, was) && Runs(s, steps)
    ensures KickOnCourse(After(s, steps), k, sid, target, was)
    decreases |steps|
  {
    if steps != [] {
      hide Inv, KickOnCourse;
      KickStepOnCourse(s, steps[0], k, sid, target, was);
      StepKept(s, steps[0]);
      KickRunOnCourse(Apply(s, steps[0]), steps[1..], k, sid, target, was);
    }
  }

  /** Whatever happens after a kick has got its gate: when the kick is over it has succeeded exactly
      if its target was the current control of the session when it got the gate. Then that control
      is closed, out of the table for good, and this kick took it out. */
  lemma KickTakesEffectIff(steps: seq<Step>, k: nat, more: seq<Step>)
    requires Runs(Start, steps) && KickDecides(After(Start, steps), k) && Runs(After(Start, steps), more)
    ensures var s, s' := After(Start, steps), After(After(Start, steps), more);
            KickOver(s', k) ==>
              var InKick(sid, target, pc) := s.tasks[Kick(k)].pc;
              && (s'.tasks[Kick(k)].pc.kick == KickDone(true) <==> sid in s.sh.table && s.sh.table[sid].control == target)
              && (s'.tasks[Kick(k)].pc.kick == KickDone(true) ==>
                    && target in s'.sh.closed && target in s'.sh.exits && s'.sh.exits[target] == KickedBy(k)
                    && forall x <- s'.sh.table :: s'.sh.table[x].control != target)
  {
    StartIsSound(steps);
    var s := After(Start, steps);
    var s' := After(s, more);
    var InKick(sid, target, _) := s.tasks[Kick(k)].pc;
    hide Inv;
    KickRunOnCourse(s, more, k, sid, target, IsCurrent(s.sh.table, sid, target));
    RunKept(s, more);
    if KickOver(s', k) && s'.tasks[Kick(k)].pc.kick == KickDone(true) {
      TaskFacts(s', Kick(k));
      NotCurrentAfterExit(s', target);
      assert forall x <- s'.sh.table :: !IsCurrent(s'.sh.table, x, target);
    }
  }

  function KickRank(pc: KickPc): nat {
    match pc
    case KickCheck => 4
    case KickClose => 3
    case KickRemove => 2
    case KickDrop(_) => 1
    case _ => 0
  }

  lemma KickGoesOn(s: State, k: nat, sid: SessionId, c: ControlId, lock: Lock, pc: KickPc)
    requires lock.Holding? && KickRank(pc) > 0
    ensures var s' := AdvanceKick(s, Kick(k), sid, c, lock, pc);
            && Kick(k) in s'.tasks && s'.tasks[Kick(k)].pc.InKick? && KickRank(s'.tasks[Kick(k)].pc.kick) < KickRank(pc)
            && (if s'.tasks[Kick(k)].pc.kick.KickDone? then true else KickRank(s'.tasks[Kick(k)].pc.kick) > 0)
            && (!s'.tasks[Kick(k)].pc.kick.KickDone? ==> s'.tasks[Kick(k)].lock.Holding?)
  {
  }

  /** A kick that has its gate can always finish by its own steps. */
  lemma {:induction false} KickCanFinish(s: State, k: nat) returns (steps: seq<Step>)
    requires Kick(k) in s.tasks && s.tasks[Kick(k)].pc.InKick? && s.tasks[Kick(k)].lock.Holding?
    requires KickRank(s.tasks[Kick(k)].pc.kick) > 0
    ensures Runs(s, steps) && OwnMoves(steps, Kick(k)) && KickOver(After(s, steps), k)
    decreases KickRank(s.tasks[Kick(k)].pc.kick)
  {
    hide AdvanceKick;
    var step := Advance(Kick(k), true);
    var task := s.tasks[Kick(k)];
    KickGoesOn(s, k, task.pc.sid, task.pc.target, task.lock, task.pc.kick);
    var s' := Apply(s, step);
    assert s' == AdvanceKick(s, Kick(k), task.pc.sid, task.pc.target, task.lock, task.pc.kick);
    var rest := [];
    if !KickOver(s', k) {
      rest := KickCanFinish(s', k);
    }
    RunsFirst(s, step, rest);
    steps := [step] + rest;
  }

  // ---------- one operation alone ----------

  /** One own step of a kick, in terms of its task and of the rest. */
  lemma KickMoves(s: State, k: nat, sid: SessionId, c: ControlId, lock: Lock, pc: KickPc)
    requires Kick(k) in s.tasks && s.tasks[Kick(k)] == Task(lock, InKick(sid, c, pc))
    requires Enabled(s, Advance(Kick(k), true))
    ensures Apply(s, Advance(Kick(k), true)) == AdvanceKick(s, Kick(k), sid, c, lock, pc)
  {
    hide AdvanceKick;
  }

  /** The state with nothing but the kick's own task changed. */
  function KickAt(s: State, k: nat, lock: Lock, sid: SessionId, c: ControlId, pc: KickPc): State {
    s.(tasks := s.tasks[Kick(k) := Task(lock, InKick(sid, c, pc))])
  }

  /** And with its gate taken. */
  function KickIn(s: State, k: nat, g: GateId, sid: SessionId, c: ControlId, pc: KickPc): State {
    KickAt(s, k, Holding(g), sid, c, pc).(holder := s.holder[g := Kick(k)])
  }

  /** The target is closed, out of the table, and this kick is on record for it. */
  function KickedOut(sh: Shared, k: nat, sid: SessionId, c: ControlId): Shared {
    Shared(sh.table - {sid}, sh.sidOf, sh.closed + {c}, sh.activated, sh.gateOf, sh.exits[c := KickedBy(k)])
  }

  lemma KickQueues(s: State, k: nat, sid: SessionId)
    requires Kick(k) !in s.tasks && sid in s.sh.table
    ensures var b, e := KickAt(s, k, Free, sid, 0, KickPeek), s.sh.table[sid];
            && Enabled(s, StartKick(k, sid)) && Apply(s, StartKick(k, sid)) == b
            && Enabled(b, Advance(Kick(k), true))
            && Apply(b, Advance(Kick(k), true)) == KickAt(s, k, Waiting(e.gate), sid, e.control, KickLock)
  {
    var b := KickAt(s, k, Free, sid, 0, KickPeek);
    KickMoves(b, k, sid, 0, Free, KickPeek);
  }

  lemma KickEnters(s: State, k: nat, g: GateId, sid: SessionId, c: ControlId)
    requires g !in s.holder && IsCurrent(s.sh.table, sid, c)
    ensures var b, i := KickAt(s, k, Waiting(g), sid, c, KickLock), KickIn(s, k, g, sid, c, KickCheck);
            && Enabled(b, Advance(Kick(k), true)) && Apply(b, Advance(Kick(k), true)) == i
            && Enabled(i, Advance(Kick(k), true)) && Apply(i, Advance(Kick(k), true)) == KickIn(s, k, g, sid, c, KickClose)
  {
    KickMoves(KickAt(s, k, Waiting(g), sid, c, KickLock), k, sid, c, Waiting(g), KickLock);
    KickMoves(KickIn(s, k, g, sid, c, KickCheck), k, sid, c, Holding(g), KickCheck);
  }

  lemma KickRemoves(s: State, k: nat, g: GateId, sid: SessionId, c: ControlId)
    requires g !in s.holder && IsCurrent(s.sh.table, sid, c)
    ensures var b := KickIn(s, k, g, sid, c, KickClose);
            var r := KickIn(s, k, g, sid, c, KickRemove).(sh := s.sh.(closed := s.sh.closed + {c}));
            var d := KickIn(s, k, g, sid, c, KickDrop(true)).(sh := KickedOut(s.sh, k, sid, c));
            && Enabled(b, Advance(Kick(k), true)) && Apply(b, Advance(Kick(k), true)) == r
            && Enabled(r, Advance(Kick(k), true)) && Apply(r, Advance(Kick(k), true)) == d
  {
    KickMoves(KickIn(s, k, g, sid, c, KickClose), k, sid, c, Holding(g), KickClose);
    KickMoves(KickIn(s, k, g, sid, c, KickRemove).(sh := s.sh.(closed := s.sh.closed + {c})), k, sid, c, Holding(g), KickRemove);
  }

  lemma KickLeaves(s: State, k: nat, g: GateId, sid: SessionId, c: ControlId)
    requires g !in s.holder
    ensures var d := KickIn(s, k, g, sid, c, KickDrop(true)).(sh := KickedOut(s.sh, k, sid, c));
            && Enabled(d, Advance(Kick(k), true))
            && Apply(d, Advance(Kick(k), true)) == KickAt(s, k, Free, sid, c, KickDone(true)).(sh := KickedOut(s.sh, k, sid, c))
  {
    var d := KickIn(s, k, g, sid, c, KickDrop(true)).(sh := KickedOut(s.sh, k, sid, c));
    KickMoves(d, k, sid, c, Holding(g), KickDrop(true));
    assert d.holder - {g} == s.holder;
  }

  function Move(t: TaskId): Step {
    Advance(t, true)
  }

  /** A kick of a session nobody else is busy with: a control in the table is closed and taken out,
      and nothing else changes; without one the kick fails and changes nothing. */
  lemma KickAlone(s: State, k: nat, sid: SessionId) returns (steps: seq<Step>)
    requires Kick(k) !in s.tasks && (sid in s.sh.table ==> s.sh.table[sid].gate !in s.holder)
    ensures Runs(s, steps) && steps != [] && steps[0] == StartKick(k, sid) && OwnMoves(steps[1..], Kick(k))
    ensures var s' := After(s, steps);
            if sid in s.sh.table then
              var c := s.sh.table[sid].control;
              && s'.sh.table == s.sh.table - {sid} && s'.sh.closed == s.sh.closed + {c}
              && s'.sh.exits == s.sh.exits[c := KickedBy(k)]
              && s'.sh.sidOf == s.sh.sidOf && s'.sh.activated == s.sh.activated && s'.sh.gateOf == s.sh.gateOf
              && s'.holder == s.holder && s'.tasks == s.tasks[Kick(k) := Task(Free, InKick(sid, c, KickDone(true)))]
            else
              s'.sh == s.sh && s'.holder == s.holder && s'.tasks == s.tasks[Kick(k) := Task(Free, InKick(sid, 0, KickDone(false)))]
  {
    var move := Move(Kick(k));
    if sid in s.sh.table {
      var Entry(c, g) := s.sh.table[sid];
      KickQueues(s, k, sid);
      KickEnters(s, k, g, sid, c);
      KickRemoves(s, k, g, sid, c);
      KickLeaves(s, k, g, sid, c);
      hide Apply, Enabled, KickIn;
      var d := KickIn(s, k, g, sid, c, KickDrop(true)).(sh := KickedOut(s.sh, k, sid, c));
      var r := KickIn(s, k, g, sid, c, KickRemove).(sh := s.sh.(closed := s.sh.closed + {c}));
      RunsFirst(d, move, []);
      RunsFirst(r, move, [move] + []);
      RunsFirst(KickIn(s, k, g, sid, c, KickClose), move, [move] + ([move] + []));
      var three := [move] + ([move] + ([move] + []));
      RunsFirst(KickIn(s, k, g, sid, c, KickCheck), move, three);
      RunsFirst(KickAt(s, k, Waiting(g), sid, c, KickLock), move, [move] + three);
      RunsFirst(KickAt(s, k, Free, sid, 0, KickPeek), move, [move] + ([move] + three));
      RunsFirst(s, StartKick(k, sid), [move] + ([move] + ([move] + three)));
      steps := [StartKick(k, sid)] + ([move] + ([move] + ([move] + three)));
    } else {
      var b := KickAt(s, k, Free, sid, 0, KickPeek);
      KickMoves(b, k, sid, 0, Free, KickPeek);
      RunsFirst(b, move, []);
      RunsFirst(s, StartKick(k, sid), [move] + []);
      steps := [StartKick(k, sid)] + ([move] + []);
    }
  }

  // ---------- a lookup ----------

  lemma LookupMoves(s: State, q: nat, sid: SessionId, c: ControlId, lock: Lock, pc: LookupPc)
    requires Lookup(q) in s.tasks && s.tasks[Lookup(q)] == Task(lock, InLookup(sid, c, pc))
    requires Enabled(s, Advance(Lookup(q), true))
    ensures Apply(s, Advance(Lookup(q), true)) == AdvanceLookup(s, Lookup(q), sid, c, lock, pc)
  {
    hide AdvanceLookup;
  }

  function LookupAt(s: State, q: nat, lock: Lock, sid: SessionId, c: ControlId, pc: LookupPc): State {
    s.(tasks := s.tasks[Lookup(q) := Task(lock, InLookup(sid, c, pc))])
  }

  function LookupIn(s: State, q: nat, g: GateId, sid: SessionId, c: ControlId, pc: LookupPc): State {
    LookupAt(s, q, Holding(g), sid, c, pc).(holder := s.holder[g := Lookup(q)])
  }

  lemma LookupEnters(s: State, q: nat, sid: SessionId)
    requires Lookup(q) !in s.tasks && sid in s.sh.table && s.sh.table[sid].gate !in s.holder
    ensures var Entry(c, g) := s.sh.table[sid];
            var b, w := LookupAt(s, q, Free, sid, 0, FindPeek), LookupAt(s, q, Waiting(g), sid, c, FindLock);
            && Enabled(s, StartLookup(q, sid)) && Apply(s, StartLookup(q, sid)) == b
            && Enabled(b, Move(Lookup(q))) && Apply(b, Move(Lookup(q))) == w
            && Enabled(w, Move(Lookup(q))) && Apply(w, Move(Lookup(q))) == LookupIn(s, q, g, sid, c, FindCheck)
  {
    var Entry(c, g) := s.sh.table[sid];
    LookupMoves(LookupAt(s, q, Free, sid, 0, FindPeek), q, sid, 0, Free, FindPeek);
    LookupMoves(LookupAt(s, q, Waiting(g), sid, c, FindLock), q, sid, c, Waiting(g), FindLock);
  }

  lemma LookupLeaves(s: State, q: nat, g: GateId, sid: SessionId, c: ControlId)
    requires IsCurrent(s.sh.table, sid, c) && g !in s.holder
    ensures var found := c in s.sh.activated && c !in s.sh.closed;
            var i, d := LookupIn(s, q, g, sid, c, FindCheck), LookupIn(s, q, g, sid, c, FindDrop(found));
            && Enabled(i, Move(Lookup(q))) && Apply(i, Move(Lookup(q))) == d
            && Enabled(d, Move(Lookup(q))) && Apply(d, Move(Lookup(q))) == LookupAt(s, q, Free, sid, c, FindDone(found))
  {
    var found := c in s.sh.activated && c !in s.sh.closed;
    LookupMoves(LookupIn(s, q, g, sid, c, FindCheck), q, sid, c, Holding(g), FindCheck);
    LookupMoves(LookupIn(s, q, g, sid, c, FindDrop(found)), q, sid, c, Holding(g), FindDrop(found));
    assert s.holder[g := Lookup(q)] - {g} == s.holder;
  }

  /** A lookup of a session nobody else is busy with finds the control in the table exactly if it was
      activated and is not closed; it changes nothing. */
  lemma LookupAlone(s: State, q: nat, sid: SessionId) returns (steps: seq<Step>)
    requires Lookup(q) !in s.tasks && (sid in s.sh.table ==> s.sh.table[sid].gate !in s.holder)
    ensures Runs(s, steps) && steps != [] && steps[0] == StartLookup(q, sid) && OwnMoves(steps[1..], Lookup(q))
    ensures var s' := After(s, steps);
            && s'.sh == s.sh && s'.holder == s.holder && Lookup(q) in s'.tasks
            && s'.tasks == s.tasks[Lookup(q) := s'.tasks[Lookup(q)]]
            && s'.tasks[Lookup(q)].lock.Free? && s'.tasks[Lookup(q)].pc.InLookup?
            && s'.tasks[Lookup(q)].pc.lookup
               == FindDone(sid in s.sh.table && s.sh.table[sid].control in s.sh.activated
                           && s.sh.table[sid].control !in s.sh.closed)
            && (sid in s.sh.table ==> s'.tasks[Lookup(q)].pc.target == s.sh.table[sid].control)
  {
    var move := Move(Lookup(q));
    if sid in s.sh.table {
      var Entry(c, g) := s.sh.table[sid];
      LookupEnters(s, q, sid);
      LookupLeaves(s, q, g, sid, c);
      hide Apply, Enabled, LookupIn;
      RunsFirst(LookupIn(s, q, g, sid, c, FindDrop(c in s.sh.activated && c !in s.sh.closed)), move, []);
      RunsFirst(LookupIn(s, q, g, sid, c, FindCheck), move, [move] + []);
      RunsFirst(LookupAt(s, q, Waiting(g), sid, c, FindLock), move, [move] + ([move] + []));
      var three := [move] + ([move] + ([move] + []));
      RunsFirst(LookupAt(s, q, Free, sid, 0, FindPeek), move, three);
      RunsFirst(s, StartLookup(q, sid), [move] + three);
      steps := [StartLookup(q, sid)] + ([move] + three);
    } else {
      var b := LookupAt(s, q, Free, sid, 0, FindPeek);
      LookupMoves(b, q, sid, 0, Free, FindPeek);
      RunsFirst(b, move, []);
      RunsFirst(s, StartLookup(q, sid), [move] + []);
      steps := [StartLookup(q, sid)] + ([move] + []);
    }
  }

  /** The control is the one in the table, activated and not closed. */
  predicate Serves(sh: Shared, sid: SessionId, c: ControlId) {
    sid in sh.table && sh.table[sid].control == c && c in sh.activated && c !in sh.closed
  }

  ghost predicate SometimesServes(s: State, steps: seq<Step>, sid: SessionId, c: ControlId)
    requires Runs(s, steps)
    decreases |steps|
  {
    Serves(s.sh, sid, c) || (steps != [] && SometimesServes(Apply(s, steps[0]), steps[1..], sid, c))
  }

  ghost predicate AlwaysServes(s: State, steps: seq<Step>, sid: SessionId, c: ControlId)
    requires Runs(s, steps)
    decreases |steps|
  {
    Serves(s.sh, sid, c) && (steps == [] || AlwaysServes(Apply(s, steps[0]), steps[1..], sid, c))
  }

  /** The lookup has decided, for the same session and control. */
  predicate LookupDecided(s: State, q: nat, sid: SessionId, c: ControlId, found: bool) {
    && Lookup(q) in s.tasks && s.tasks[Lookup(q)].pc.InLookup?
    && s.tasks[Lookup(q)].pc.sid == sid && s.tasks[Lookup(q)].pc.target == c
    && (s.tasks[Lookup(q)].pc.lookup == FindDrop(found) || s.tasks[Lookup(q)].pc.lookup == FindDone(found))
  }

  lemma LookupDecides(s: State, q: nat, choice: bool)
    requires AtFindCheck(s, q)
    ensures var InLookup(sid, c, _) := s.tasks[Lookup(q)].pc;
            LookupDecided(Apply(s, Advance(Lookup(q), choice)), q, sid, c, Serves(s.sh, sid, c))
  {
    var task := s.tasks[Lookup(q)];
    assert Apply(s, Advance(Lookup(q), choice)) == AdvanceLookup(s, Lookup(q), task.pc.sid, task.pc.target, task.lock, task.pc.lookup);
  }

  lemma DecidedStays(s: State, step: Step, q: nat, sid: SessionId, c: ControlId, found: bool)
    requires Inv(s) && Enabled(s, step) && LookupDecided(s, q, sid, c, found)
    ensures LookupDecided(Apply(s, step), q, sid, c, found)
  {
    if step.Advance? && step.task == Lookup(q) {
      TaskFacts(s, Lookup(q));
      hide Inv;
      var task := s.tasks[Lookup(q)];
      assert Apply(s, step) == AdvanceLookup(s, Lookup(q), sid, c, task.lock, task.pc.lookup);
    } else {
      OthersAsTheyWere(s, step, Lookup(q));
    }
  }

  lemma {:induction false} DecidedRun(s: State, steps: seq<Step>, q: nat, sid: SessionId, c: ControlId, found: bool)
    requires Inv(s) && Runs(s, steps) && LookupDecided(s, q, sid, c, found)
    ensures LookupDecided(After(s, steps), q, sid, c, found)
    decreases |steps|
  {
    if steps != [] {
      hide Inv, LookupDecided;
      DecidedStays(s, steps[0], q, sid, c, found);
      StepKept(s, steps[0]);
      DecidedRun(Apply(s, steps[0]), steps[1..], q, sid, c, found);
    }
  }

  lemma {:induction false} LookupAnswer(s: State, steps: seq<Step>, q: nat, sid: SessionId, c: ControlId, found: bool)
    requires Inv(s) && Runs(s, steps) && AtFindCheck(s, q)
    requires s.tasks[Lookup(q)].pc.sid == sid && s.tasks[Lookup(q)].pc.target == c
    requires LookupDecided(After(s, steps), q, sid, c, found)
    ensures found ==> SometimesServes(s, steps, sid, c)
    ensures AlwaysServes(s, steps, sid, c) ==> found
    decreases |steps|
  {
    hide Inv;
    assert steps != [];
    var step, s' := steps[0], Apply(s, steps[0]);
    StepKept(s, step);
    if step.Advance? && step.task == Lookup(q) {
      LookupDecides(s, q, step.choice);
      DecidedRun(s', steps[1..], q, sid, c, Serves(s.sh, sid, c));
    } else {
      OthersAsTheyWere(s, step, Lookup(q));
      LookupAnswer(s', steps[1..], q, sid, c, found);
    }
  }

  /** Whatever else happens while a lookup holds its gate: if it answers that it found its control,
      then that control served the session at some moment meanwhile; and if the control served it
      all the while, then it is found. */
  lemma LookupAnswersTruly(steps: seq<Step>, q: nat, more: seq<Step>)
    requires Runs(Start, steps) && AtFindCheck(After(Start, steps), q) && Runs(After(Start, steps), more)
    ensures var s, s' := After(Start, steps), After(After(Start, steps), more);
            var InLookup(sid, c, _) := s.tasks[Lookup(q)].pc;
            Lookup(q) in s'.tasks && s'.tasks[Lookup(q)].pc.InLookup? && s'.tasks[Lookup(q)].pc.lookup.FindDone? ==>
              && s'.tasks[Lookup(q)].pc.target == c
              && (s'.tasks[Lookup(q)].pc.lookup.found ==> SometimesServes(s, more, sid, c))
              && (AlwaysServes(s, more, sid, c) ==> s'.tasks[Lookup(q)].pc.lookup.found)
  {
    StartIsSound(steps);
    var s := After(Start, steps);
    var s' := After(s, more);
    var InLookup(sid, c, _) := s.tasks[Lookup(q)].pc;
    hide Inv;
    if Lookup(q) in s'.tasks && s'.tasks[Lookup(q)].pc.InLookup? && s'.tasks[Lookup(q)].pc.lookup.FindDone? {
      LookupKeepsAim(s, more, q);
      LookupAnswer(s, more, q, sid, c, s'.tasks[Lookup(q)].pc.lookup.found);
    }
  }

  lemma {:induction false} LookupKeepsAim(s: State, steps: seq<Step>, q: nat)
    requires Inv(s) && Runs(s, steps) && AtFindCheck(s, q)
    ensures var s' := After(s, steps);
            && Lookup(q) in s'.tasks && s'.tasks[Lookup(q)].pc.InLookup?
            && s'.tasks[Lookup(q)].pc.sid == s.tasks[Lookup(q)].pc.sid
            && s'.tasks[Lookup(q)].pc.target == s.tasks[Lookup(q)].pc.target
    decreases |steps|
  {
    if steps != [] {
      hide Inv;
      var step, s' := steps[0], Apply(s, steps[0]);
      var InLookup(sid, c, _) := s.tasks[Lookup(q)].pc;
      StepKept(s, step);
      if step.Advance? && step.task == Lookup(q) {
        LookupDecides(s, q, step.choice);
        DecidedRun(s', steps[1..], q, sid, c, Serves(s.sh, sid, c));
      } else {
        OthersAsTheyWere(s, step, Lookup(q));
        LookupKeepsAim(s', steps[1..], q);
      }
    }
  }

  // ---------- a login ----------

  /** The state with a login at this point, and these flags, holders and gates. */
  function LoginAt(s: State, sh: Shared, holder: map<GateId, TaskId>, c: ControlId, lock: Lock, pc: LoginPc, nextGate: GateId): State {
    State(sh, holder, s.tasks[Login(c) := Task(lock, InLogin(pc))], c + 1, nextGate)
  }

  lemma LoginMoves(s: State, c: ControlId, lock: Lock, pc: LoginPc, choice: bool)
    requires Login(c) in s.tasks && s.tasks[Login(c)] == Task(lock, InLogin(pc)) && Enabled(s, Advance(Login(c), choice))
    ensures Apply(s, Advance(Login(c), choice)) == AdvanceLogin(s, c, lock, pc, choice)
  {
    hide AdvanceLogin;
  }

  /** The gate a login gets: that of the session's entry, or a new one. */
  function GateFor(s: State, sid: SessionId): GateId {
    if sid in s.sh.table then s.sh.table[sid].gate else s.nextGate
  }

  function GatesAfter(s: State, sid: SessionId): GateId {
    if sid in s.sh.table then s.nextGate else s.nextGate + 1
  }

  function Known(sh: Shared, c: ControlId, sid: SessionId): Shared {
    sh.(sidOf := sh.sidOf[c := sid])
  }

  /** The login's control is in the table, in place of the old one, if there was one. */
  function Seated(sh: Shared, c: ControlId, sid: SessionId, g: GateId): Shared {
    Shared(sh.table[sid := Entry(c, g)], sh.sidOf[c := sid], sh.closed, sh.activated, sh.gateOf[c := g],
           if sid in sh.table then sh.exits[sh.table[sid].control := ReplacedBy(c)] else sh.exits)
  }

  function OldOf(sh: Shared, sid: SessionId): set<ControlId> {
    if sid in sh.table then {sh.table[sid].control} else {}
  }

  function OldClosed(sh: Shared, c: ControlId, sid: SessionId, g: GateId): Shared {
    Seated(sh, c, sid, g).(closed := sh.closed + OldOf(sh, sid))
  }

  lemma LoginQueues(s: State, sid: SessionId)
    ensures var c, g, sh := s.nextGeneration, GateFor(s, sid), Known(s.sh, s.nextGeneration, sid);
            var b := LoginAt(s, sh, s.holder, c, Free, SwapPeek, s.nextGate);
            && Enabled(s, StartLogin(sid)) && Apply(s, StartLogin(sid)) == b
            && Enabled(b, Move(Login(c)))
            && Apply(b, Move(Login(c))) == LoginAt(s, sh, s.holder, c, Waiting(g), SwapLock, GatesAfter(s, sid))
  {
    var c, sh := s.nextGeneration, Known(s.sh, s.nextGeneration, sid);
    LoginMoves(LoginAt(s, sh, s.holder, c, Free, SwapPeek, s.nextGate), c, Free, SwapPeek, true);
  }

  lemma LoginEnters(s: State, sid: SessionId)
    requires GateFor(s, sid) !in s.holder
    ensures var c, g, sh := s.nextGeneration, GateFor(s, sid), Known(s.sh, s.nextGeneration, sid);
            var w := LoginAt(s, sh, s.holder, c, Waiting(g), SwapLock, GatesAfter(s, sid));
            && Enabled(w, Move(Login(c)))
            && Apply(w, Move(Login(c)))
               == LoginAt(s, sh, s.holder[g := Login(c)], c, Holding(g), SwapCheck, GatesAfter(s, sid))
  {
    var c, g, sh := s.nextGeneration, GateFor(s, sid), Known(s.sh, s.nextGeneration, sid);
    LoginMoves(LoginAt(s, sh, s.holder, c, Waiting(g), SwapLock, GatesAfter(s, sid)), c, Waiting(g), SwapLock, true);
  }

  lemma LoginInstalls(s: State, sid: SessionId)
    ensures var c, g := s.nextGeneration, GateFor(s, sid);
            var i := LoginAt(s, Known(s.sh, c, sid), s.holder[g := Login(c)], c, Holding(g), SwapCheck, GatesAfter(s, sid));
            && Enabled(i, Move(Login(c)))
            && Apply(i, Move(Login(c)))
               == LoginAt(s, Seated(s.sh, c, sid, g), s.holder[g := Login(c)], c, Holding(g),
                          if sid in s.sh.table then CloseOld(s.sh.table[sid].control) else GoOnline, GatesAfter(s, sid))
  {
    var c, g := s.nextGeneration, GateFor(s, sid);
    var i := LoginAt(s, Known(s.sh, c, sid), s.holder[g := Login(c)], c, Holding(g), SwapCheck, GatesAfter(s, sid));
    LoginMoves(i, c, Holding(g), SwapCheck, true);
    assert Sid(i.sh, c) == sid && !GateIsStale(i.sh.table, sid, g);
    assert Apply(i, Move(Login(c))) == InstallStep(i, c, sid, g);
  }

  lemma LoginClosesOld(s: State, sid: SessionId)
    requires sid in s.sh.table
    ensures var c, g := s.nextGeneration, GateFor(s, sid);
            var held := s.holder[g := Login(c)];
            var b := LoginAt(s, Seated(s.sh, c, sid, g), held, c, Holding(g), CloseOld(s.sh.table[sid].control), s.nextGate);
            var a := LoginAt(s, OldClosed(s.sh, c, sid, g), held, c, Holding(g), AwaitOld, s.nextGate);
            && Enabled(b, Move(Login(c))) && Apply(b, Move(Login(c))) == a
            && Enabled(a, Move(Login(c)))
            && Apply(a, Move(Login(c))) == LoginAt(s, OldClosed(s.sh, c, sid, g), held, c, Holding(g), GoOnline, s.nextGate)
  {
    var c, g := s.nextGeneration, GateFor(s, sid);
    var held := s.holder[g := Login(c)];
    var old_ := CloseOld(s.sh.table[sid].control);
    LoginMoves(LoginAt(s, Seated(s.sh, c, sid, g), held, c, Holding(g), old_, s.nextGate), c, Holding(g), old_, true);
    LoginMoves(LoginAt(s, OldClosed(s.sh, c, sid, g), held, c, Holding(g), AwaitOld, s.nextGate), c, Holding(g), AwaitOld, true);
  }

  /** A login alone comes to the point of going online: it holds the session's gate, its control is in
      the table, and the old one, if any, was replaced and closed. */
  lemma LoginArrives(s: State, sid: SessionId) returns (steps: seq<Step>)
    requires GateFor(s, sid) !in s.holder
    ensures var c, g := s.nextGeneration, GateFor(s, sid);
            && Runs(s, steps) && steps != [] && steps[0] == StartLogin(sid) && OwnMoves(steps[1..], Login(c))
            && After(s, steps)
               == LoginAt(s, OldClosed(s.sh, c, sid, g), s.holder[g := Login(c)], c, Holding(g), GoOnline, GatesAfter(s, sid))
  {
    var c, g, sh := s.nextGeneration, GateFor(s, sid), Known(s.sh, s.nextGeneration, sid);
    var move, held, ng := Move(Login(c)), s.holder[g := Login(c)], GatesAfter(s, sid);
    LoginQueues(s, sid);
    LoginEnters(s, sid);
    LoginInstalls(s, sid);
    var rest: seq<Step> := [];
    if sid in s.sh.table {
      var old_ := CloseOld(s.sh.table[sid].control);
      LoginClosesOld(s, sid);
      hide Apply, Enabled, LoginAt;
      RunsFirst(LoginAt(s, OldClosed(s.sh, c, sid, g), held, c, Holding(g), AwaitOld, s.nextGate), move, []);
      RunsFirst(LoginAt(s, Seated(s.sh, c, sid, g), held, c, Holding(g), old_, s.nextGate), move, [move] + []);
      rest := [move] + ([move] + []);
    } else {
      assert OldClosed(s.sh, c, sid, g) == Seated(s.sh, c, sid, g);
    }
    hide Apply, Enabled, LoginAt;
    RunsFirst(LoginAt(s, sh, held, c, Holding(g), SwapCheck, ng), move, rest);
    RunsFirst(LoginAt(s, sh, s.holder, c, Waiting(g), SwapLock, ng), move, [move] + rest);
    RunsFirst(LoginAt(s, sh, s.holder, c, Free, SwapPeek, s.nextGate), move, [move] + ([move] + rest));
    RunsFirst(s, StartLogin(sid), [move] + ([move] + ([move] + rest)));
    steps := [StartLogin(sid)] + ([move] + ([move] + ([move] + rest)));
  }

  /** The rest of a login, from going online: how it ends, by its own steps. */
  function Activated(sh: Shared, c: ControlId): Shared {
    sh.(activated := sh.activated + {c})
  }

  lemma LoginAcks(s: State, sh: Shared, held: map<GateId, TaskId>, c: ControlId, g: GateId, ng: GateId)
    ensures var o, a := LoginAt(s, sh, held, c, Holding(g), GoOnline, ng), LoginAt(s, sh, held, c, Holding(g), Ack, ng);
            && Enabled(o, Move(Login(c))) && Apply(o, Move(Login(c))) == a
            && Enabled(a, Move(Login(c)))
            && Apply(a, Move(Login(c))) == LoginAt(s, sh, held, c, Holding(g), Activate, ng)
  {
    LoginMoves(LoginAt(s, sh, held, c, Holding(g), GoOnline, ng), c, Holding(g), GoOnline, true);
    LoginMoves(LoginAt(s, sh, held, c, Holding(g), Ack, ng), c, Holding(g), Ack, true);
  }

  lemma LoginActivates(s: State, sh: Shared, c: ControlId, g: GateId, ng: GateId)
    requires g !in s.holder
    ensures var held := s.holder[g := Login(c)];
            var v := LoginAt(s, sh, held, c, Holding(g), Activate, ng);
            var l := LoginAt(s, Activated(sh, c), held, c, Holding(g), Leave(true), ng);
            && Enabled(v, Move(Login(c))) && Apply(v, Move(Login(c))) == l
            && Enabled(l, Move(Login(c)))
            && Apply(l, Move(Login(c))) == LoginAt(s, Activated(sh, c), s.holder, c, Free, Running, ng)
  {
    var held := s.holder[g := Login(c)];
    LoginMoves(LoginAt(s, sh, held, c, Holding(g), Activate, ng), c, Holding(g), Activate, true);
    LoginMoves(LoginAt(s, Activated(sh, c), held, c, Holding(g), Leave(true), ng), c, Holding(g), Leave(true), true);
    assert held - {g} == s.holder;
  }

  lemma LoginFinishes(s: State, sid: SessionId) returns (steps: seq<Step>)
    requires GateFor(s, sid) !in s.holder
    ensures var c := s.nextGeneration;
            && Runs(s, steps) && steps != [] && steps[0] == StartLogin(sid) && OwnMoves(steps[1..], Login(c))
            && After(s, steps)
               == LoginAt(s, Activated(OldClosed(s.sh, c, sid, GateFor(s, sid)), c), s.holder, c, Free, Running, GatesAfter(s, sid))
  {
    var c := s.nextGeneration;
    var arrive := LoginArrives(s, sid);
    var rest := LoginCompletes(s, OldClosed(s.sh, c, sid, GateFor(s, sid)), c, GateFor(s, sid), GatesAfter(s, sid));
    hide Apply, Enabled, LoginAt, OldClosed, Activated;
    RunsAppend(s, arrive, rest);
    steps := arrive + rest;
    assert steps[1..] == arrive[1..] + rest;
  }

  lemma LoginCompletes(s: State, sh: Shared, c: ControlId, g: GateId, ng: GateId) returns (steps: seq<Step>)
    requires g !in s.holder
    ensures var arrived := LoginAt(s, sh, s.holder[g := Login(c)], c, Holding(g), GoOnline, ng);
            && Runs(arrived, steps) && OwnMoves(steps, Login(c))
            && After(arrived, steps) == LoginAt(s, Activated(sh, c), s.holder, c, Free, Running, ng)
  {
    var held, move := s.holder[g := Login(c)], Move(Login(c));
    LoginAcks(s, sh, held, c, g, ng);
    LoginActivates(s, sh, c, g, ng);
    hide Apply, Enabled, LoginAt, Activated;
    RunsFirst(LoginAt(s, Activated(sh, c), held, c, Holding(g), Leave(true), ng), move, []);
    RunsFirst(LoginAt(s, sh, held, c, Holding(g), Activate, ng), move, [move] + []);
    RunsFirst(LoginAt(s, sh, held, c, Holding(g), Ack, ng), move, [move] + ([move] + []));
    var three := [move] + ([move] + ([move] + []));
    RunsFirst(LoginAt(s, sh, held, c, Holding(g), GoOnline, ng), move, three);
    steps := [move] + three;
  }

  /** A login that nobody interferes with, that the agent index accepts and whose acknowledgement is
      written: the session's entry is its new control, activated and not closed; a control that was
      there before is closed and recorded as replaced; nothing else changes. */
  lemma LoginAlone(before: seq<Step>, sid: SessionId) returns (steps: seq<Step>)
    requires Runs(Start, before)
    requires var s := After(Start, before); sid in s.sh.table ==> s.sh.table[sid].gate !in s.holder
    ensures var s := After(Start, before);
            Runs(s, steps) && steps != [] && steps[0] == StartLogin(sid) && OwnMoves(steps[1..], Login(s.nextGeneration))
    ensures var s := After(Start, before);
            var s', c := After(s, steps), s.nextGeneration;
            && c !in s.sh.sidOf && sid in s'.sh.table && s'.sh.table == s.sh.table[sid := s'.sh.table[sid]]
            && s'.sh.table[sid].control == c && s'.sh.sidOf == s.sh.sidOf[c := sid]
            && s'.sh.activated == s.sh.activated + {c} && c !in s'.sh.closed
            && s'.sh.closed == s.sh.closed + (if sid in s.sh.table then {s.sh.table[sid].control} else {})
            && s'.sh.exits == (if sid in s.sh.table then s.sh.exits[s.sh.table[sid].control := ReplacedBy(c)] else s.sh.exits)
            && s'.holder == s.holder && s'.tasks == s.tasks[Login(c) := Task(Free, InLogin(Running))]
  {
    StartIsSound(before);
    ClosedRunKept(Start, before);
    var s := After(Start, before);
    NobodyHasIt(s, sid);
    hide Inv, Apply;
    steps := LoginFinishes(s, sid);
  }

  lemma NobodyHasIt(s: State, sid: SessionId)
    requires Inv(s) && ClosedAreKnown(s.sh) && (sid in s.sh.table ==> s.sh.table[sid].gate !in s.holder)
    ensures GateFor(s, sid) !in s.holder && s.nextGeneration !in s.sh.sidOf
    ensures s.nextGeneration !in s.sh.closed + OldOf(s.sh, sid)
  {
    GenerationIsFresh(s);
  }

  // ---------- only controls that logged in are closed ----------

  predicate ClosedAreKnown(sh: Shared) {
    sh.closed <= sh.sidOf.Keys
  }

  /** The one control that a step of this task may close. */
  function Closes(task: Task, t: TaskId): set<ControlId> {
    match task.pc
    case InLogin(pc) => if pc.CloseOld? then {pc.replaced} else if t.Login? then {t.control} else {}
    case InKick(_, c, pc) => if pc.KickClose? then {c} else {}
    case InLookup(_, _, _) => {}
  }

  lemma AdvanceCloses(s: State, t: TaskId, choice: bool)
    requires Enabled(s, Advance(t, choice))
    ensures Apply(s, Advance(t, choice)).sh.closed <= s.sh.closed + Closes(s.tasks[t], t)
    ensures Apply(s, Advance(t, choice)).sh.sidOf == s.sh.sidOf
  {
    hide AdvanceSwap, AdvanceGuarded, AdvanceEnding, AdvanceKick, AdvanceLookup;
    var task := s.tasks[t];
    match task.pc
    case InLogin(pc) =>
      if t.Login? {
        SwapCloses(s, t.control, task.lock, pc);
        GuardedCloses(s, t.control, task.lock, pc, choice);
        EndingCloses(s, t.control, task.lock, pc);
      }
    case InKick(sid, c, pc) => KickCloses(s, t, sid, c, task.lock, pc);
    case InLookup(sid, c, pc) => LookupCloses(s, t, sid, c, task.lock, pc);
  }

  lemma ClosersKnow(s: State, t: TaskId)
    requires Inv(s) && t in s.tasks
    ensures Closes(s.tasks[t], t) <= s.sh.sidOf.Keys || (s.tasks[t].pc.InKick? && s.tasks[t].lock.Free?)
    ensures s.tasks[t].pc.InKick? && s.tasks[t].pc.kick.KickClose? ==> s.tasks[t].lock.Holding?
  {
    TaskFacts(s, t);
    hide Inv;
  }

  lemma ClosedStepKept(s: State, step: Step)
    requires Inv(s) && ClosedAreKnown(s.sh) && Enabled(s, step)
    ensures ClosedAreKnown(Apply(s, step).sh)
  {
    match step
    case Advance(t, choice) =>
      ClosersKnow(s, t);
      AdvanceCloses(s, t, choice);
      hide Inv, Apply;
    case CloseAnytime(c) =>
      TaskFacts(s, Login(c));
    case _ =>
  }

  lemma {:induction false} ClosedRunKept(s: State, steps: seq<Step>)
    requires Inv(s) && ClosedAreKnown(s.sh) && Runs(s, steps)
    ensures ClosedAreKnown(After(s, steps).sh)
    decreases |steps|
  {
    if steps != [] {
      hide Inv, ClosedAreKnown;
      ClosedStepKept(s, steps[0]);
      StepKept(s, steps[0]);
      ClosedRunKept(Apply(s, steps[0]), steps[1..]);
    }
  }

  // ---------- the end of a login ----------

  /** The state with this login moved on. */
  function MovedOn(s: State, c: ControlId, lock: Lock, pc: LoginPc): State {
    s.(tasks := s.tasks[Login(c) := Task(lock, InLogin(pc))])
  }

  function MovedIn(s: State, c: ControlId, g: GateId, pc: LoginPc): State {
    MovedOn(s, c, Holding(g), pc).(holder := s.holder[g := Login(c)])
  }

  /** The login's control is out of the table. */
  function CleanedUpBy(sh: Shared, c: ControlId): Shared {
    sh.(table := sh.table - {Sid(sh, c)}, exits := sh.exits[c := CleanedUp])
  }

  lemma RemovalQueues(s: State, c: ControlId, acked: bool)
    requires IsCurrent(s.sh.table, Sid(s.sh, c), c)
    ensures var p := MovedOn(s, c, Free, RmPeek(acked));
            && Enabled(p, Move(Login(c)))
            && Apply(p, Move(Login(c))) == MovedOn(s, c, Waiting(s.sh.table[Sid(s.sh, c)].gate), RmLock(acked))
  {
    LoginMoves(MovedOn(s, c, Free, RmPeek(acked)), c, Free, RmPeek(acked), true);
  }

  lemma RemovalEnters(s: State, c: ControlId, g: GateId, acked: bool)
    requires g !in s.holder
    ensures var w := MovedOn(s, c, Waiting(g), RmLock(acked));
            Enabled(w, Move(Login(c))) && Apply(w, Move(Login(c))) == MovedIn(s, c, g, RmCheck(acked))
  {
    LoginMoves(MovedOn(s, c, Waiting(g), RmLock(acked)), c, Waiting(g), RmLock(acked), true);
  }

  lemma RemovalRemoves(s: State, c: ControlId, g: GateId, acked: bool)
    requires IsCurrent(s.sh.table, Sid(s.sh, c), c)
    ensures var k := MovedIn(s, c, g, RmCheck(acked));
            && Enabled(k, Move(Login(c)))
            && Apply(k, Move(Login(c))) == MovedIn(s, c, g, RmDrop(acked, true)).(sh := CleanedUpBy(s.sh, c))
  {
    LoginMoves(MovedIn(s, c, g, RmCheck(acked)), c, Holding(g), RmCheck(acked), true);
  }

  lemma RemovalLeaves(s: State, c: ControlId, g: GateId, acked: bool)
    requires g !in s.holder
    ensures var d := MovedIn(s, c, g, RmDrop(acked, true)).(sh := CleanedUpBy(s.sh, c));
            && Enabled(d, Move(Login(c)))
            && Apply(d, Move(Login(c)))
               == MovedOn(s, c, Free, if acked then LoginDone(true, true) else FailSignal(true)).(sh := CleanedUpBy(s.sh, c))
  {
    LoginMoves(MovedIn(s, c, g, RmDrop(acked, true)).(sh := CleanedUpBy(s.sh, c)), c, Holding(g), RmDrop(acked, true), true);
    assert s.holder[g := Login(c)] - {g} == s.holder;
  }

  /** remove_if_current by a login whose control is in the table. */
  lemma RemovalAlone(s: State, c: ControlId, acked: bool) returns (steps: seq<Step>)
    requires IsCurrent(s.sh.table, Sid(s.sh, c), c) && s.sh.table[Sid(s.sh, c)].gate !in s.holder
    ensures var p := MovedOn(s, c, Free, RmPeek(acked));
            && Runs(p, steps) && OwnMoves(steps, Login(c))
            && After(p, steps)
               == MovedOn(s, c, Free, if acked then LoginDone(true, true) else FailSignal(true)).(sh := CleanedUpBy(s.sh, c))
  {
    var g, move := s.sh.table[Sid(s.sh, c)].gate, Move(Login(c));
    RemovalQueues(s, c, acked);
    RemovalEnters(s, c, g, acked);
    RemovalRemoves(s, c, g, acked);
    RemovalLeaves(s, c, g, acked);
    hide Apply, Enabled, MovedOn, MovedIn, CleanedUpBy;
    RunsFirst(MovedIn(s, c, g, RmDrop(acked, true)).(sh := CleanedUpBy(s.sh, c)), move, []);
    RunsFirst(MovedIn(s, c, g, RmCheck(acked)), move, [move] + []);
    RunsFirst(MovedOn(s, c, Waiting(g), RmLock(acked)), move, [move] + ([move] + []));
    RunsFirst(MovedOn(s, c, Free, RmPeek(acked)), move, [move] + ([move] + ([move] + [])));
    steps := [move] + ([move] + ([move] + ([move] + [])));
  }

  lemma ConnectionCloses(s: State, c: ControlId)
    ensures var r, e := MovedOn(s, c, Free, Running), MovedOn(s, c, Free, EndSignal);
            && Enabled(r, Move(Login(c))) && Apply(r, Move(Login(c))) == e
            && Enabled(e, Move(Login(c)))
            && Apply(e, Move(Login(c))) == MovedOn(s, c, Free, RmPeek(true)).(sh := s.sh.(closed := s.sh.closed + {c}))
  {
    LoginMoves(MovedOn(s, c, Free, Running), c, Free, Running, true);
    LoginMoves(MovedOn(s, c, Free, EndSignal), c, Free, EndSignal, true);
  }

  lemma NothingToRemove(s: State, c: ControlId)
    requires !IsCurrent(s.sh.table, Sid(s.sh, c), c)
    ensures var p := MovedOn(s, c, Free, RmPeek(true));
            Enabled(p, Move(Login(c))) && Apply(p, Move(Login(c))) == MovedOn(s, c, Free, LoginDone(true, false))
  {
    LoginMoves(MovedOn(s, c, Free, RmPeek(true)), c, Free, RmPeek(true), true);
  }

  /** The end of a connection that nobody interferes with: its control is closed; if it is still in the
      table it is taken out, on record as cleaned up, and else only the flag changes. */
  lemma ConnectionEndsAlone(s: State, c: ControlId) returns (steps: seq<Step>)
    requires Login(c) in s.tasks && s.tasks[Login(c)] == Task(Free, InLogin(Running))
    requires IsCurrent(s.sh.table, Sid(s.sh, c), c) ==> s.sh.table[Sid(s.sh, c)].gate !in s.holder
    ensures Runs(s, steps) && OwnMoves(steps, Login(c))
    ensures var s', sid := After(s, steps), Sid(s.sh, c);
            var won := sid in s.sh.table && s.sh.table[sid].control == c;
            && s'.sh.table == (if won then s.sh.table - {sid} else s.sh.table)
            && s'.sh.exits == (if won then s.sh.exits[c := CleanedUp] else s.sh.exits)
            && s'.sh.closed == s.sh.closed + {c} && s'.sh.activated == s.sh.activated
            && s'.sh.sidOf == s.sh.sidOf && s'.sh.gateOf == s.sh.gateOf
            && s'.holder == s.holder && s'.tasks == s.tasks[Login(c) := Task(Free, InLogin(LoginDone(true, won)))]
  {
    var move := Move(Login(c));
    var ending := s.(sh := s.sh.(closed := s.sh.closed + {c}));
    assert MovedOn(s, c, Free, Running) == s by { assert s.tasks[Login(c) := s.tasks[Login(c)]] == s.tasks; }
    ConnectionCloses(s, c);
    assert Sid(ending.sh, c) == Sid(s.sh, c);
    var rest: seq<Step>;
    if IsCurrent(s.sh.table, Sid(s.sh, c), c) {
      rest := RemovalAlone(ending, c, true);
    } else {
      NothingToRemove(ending, c);
      hide Apply, Enabled, MovedOn;
      RunsFirst(MovedOn(ending, c, Free, RmPeek(true)), move, []);
      rest := [move] + [];
    }
    assert MovedOn(s, c, Free, RmPeek(true)).(sh := s.sh.(closed := s.sh.closed + {c})) == MovedOn(ending, c, Free, RmPeek(true));
    hide Apply, Enabled;
    RunsFirst(MovedOn(s, c, Free, EndSignal), move, rest);
    RunsFirst(s, move, [move] + rest);
    steps := [move] + ([move] + rest);
  }

  /** Whenever a login has run to its end, whatever else happened, its control is closed and no longer
      in the table. */
  lemma EndedLoginsAreOut(steps: seq<Step>, c: ControlId)
    requires Runs(Start, steps)
    ensures var s := After(Start, steps);
            Login(c) in s.tasks && s.tasks[Login(c)].pc.InLogin? && s.tasks[Login(c)].pc.login.LoginDone? ==>
              c in s.sh.closed && forall x <- s.sh.table :: s.sh.table[x].control != c
  {
    StartIsSound(steps);
    RefusedRunKept(Start, steps);
    var s := After(Start, steps);
    if Login(c) in s.tasks && s.tasks[Login(c)].pc.InLogin? && s.tasks[Login(c)].pc.login.LoginDone? {
      TaskFacts(s, Login(c));
      NotCurrentAfterExit(s, c);
      assert forall x <- s.sh.table :: !IsCurrent(s.sh.table, x, c);
      hide Inv;
    }
  }

  /** A login that was refused, or could not be acknowledged, closes its own control at the end. */
  ghost predicate RefusedAreClosed(s: State) {
    forall c <- s.sh.sidOf ::
      Login(c) in s.tasks && s.tasks[Login(c)].pc.InLogin? && s.tasks[Login(c)].pc.login.LoginDone? ==> c in s.sh.closed
  }

  lemma RefusedStepKept(s: State, step: Step)
    requires Inv(s) && RefusedAreClosed(s) && Enabled(s, step)
    ensures RefusedAreClosed(Apply(s, step))
  {
    var s' := Apply(s, step);
    StepKept(s, step);
    CloseGrows(s, step);
    forall c <- s'.sh.sidOf
      | Login(c) in s'.tasks && s'.tasks[Login(c)].pc.InLogin? && s'.tasks[Login(c)].pc.login.LoginDone?
      ensures c in s'.sh.closed
    {
      if Login(c) in s.tasks {
        TaskFacts(s, Login(c));
        if step.Advance? && step.task == Login(c) {
          DoneIsClosed(s, c, step.choice);
        } else {
          OthersAsTheyWere(s, step, Login(c));
        }
      } else {
        NewLoginsAreNotDone(s, step, c);
      }
    }
  }

  lemma NewLoginsAreNotDone(s: State, step: Step, c: ControlId)
    requires Enabled(s, step) && Login(c) !in s.tasks && Login(c) in Apply(s, step).tasks
    ensures Apply(s, step).tasks[Login(c)].pc == InLogin(SwapPeek)
  {
    if step.Advance? {
      AdvanceIsOneTask(s, step.task, step.choice);
      hide Apply;
    }
  }

  lemma EndIsClosed(s: State, c: ControlId, lock: Lock, pc: LoginPc)
    requires Login(c) in s.tasks && s.tasks[Login(c)] == Task(lock, InLogin(pc))
    requires LockFits(lock, InLogin(pc)) && (Ending(pc) ==> c in s.sh.closed) && !Guarded(pc) && Installed(pc) && !pc.LoginDone?
    ensures var s' := AdvanceEnding(s, c, lock, pc);
            Login(c) in s'.tasks && s'.tasks[Login(c)].pc.InLogin? && s'.tasks[Login(c)].pc.login.LoginDone? ==>
              c in s'.sh.closed
  {
  }

  lemma DoneIsClosed(s: State, c: ControlId, choice: bool)
    requires Inv(s) && Enabled(s, Advance(Login(c), choice)) && s.tasks[Login(c)].pc.InLogin?
    ensures var s' := Apply(s, Advance(Login(c), choice));
            Login(c) in s'.tasks && s'.tasks[Login(c)].pc.InLogin? && s'.tasks[Login(c)].pc.login.LoginDone? ==> c in s'.sh.closed
  {
    TaskFacts(s, Login(c));
    hide Inv, TableAgrees, AdvanceSwap, AdvanceGuarded, AdvanceEnding;
    var task := s.tasks[Login(c)];
    LoginMoves(s, c, task.lock, task.pc.login, choice);
    if !Installed(task.pc.login) {
      SwapIsNoEnd(s, c, task.lock, task.pc.login);
    } else if Guarded(task.pc.login) {
      GuardedIsNoEnd(s, c, task.lock, task.pc.login, choice);
    } else {
      EndIsClosed(s, c, task.lock, task.pc.login);
    }
  }

  lemma SwapIsNoEnd(s: State, c: ControlId, lock: Lock, pc: LoginPc)
    requires Login(c) in s.tasks && s.tasks[Login(c)] == Task(lock, InLogin(pc)) && !pc.LoginDone?
    ensures var s' := AdvanceSwap(s, c, lock, pc); Login(c) in s'.tasks && !Finished(s'.tasks[Login(c)].pc)
  {
  }

  lemma GuardedIsNoEnd(s: State, c: ControlId, lock: Lock, pc: LoginPc, choice: bool)
    requires Login(c) in s.tasks && s.tasks[Login(c)] == Task(lock, InLogin(pc)) && !pc.LoginDone?
    ensures var s' := AdvanceGuarded(s, c, lock, pc, choice); Login(c) in s'.tasks && !Finished(s'.tasks[Login(c)].pc)
  {
  }

  lemma {:induction false} RefusedRunKept(s: State, steps: seq<Step>)
    requires Inv(s) && RefusedAreClosed(s) && Runs(s, steps)
    ensures RefusedAreClosed(After(s, steps))
    decreases |steps|
  {
    if steps != [] {
      hide Inv, RefusedAreClosed;
      RefusedStepKept(s, steps[0]);
      StepKept(s, steps[0]);
      RefusedRunKept(Apply(s, steps[0]), steps[1..]);
    }
  }

  // ---------- a login that fails ----------

  /** The login leaves the gate without an acknowledgement. */
  lemma LoginTurnsBack(s: State, sh: Shared, c: ControlId, g: GateId, pc: LoginPc, ng: GateId)
    requires g !in s.holder && (pc.GoOnline? || pc.Ack?)
    ensures var held := s.holder[g := Login(c)];
            var b, l := LoginAt(s, sh, held, c, Holding(g), pc, ng), LoginAt(s, sh, held, c, Holding(g), Leave(false), ng);
            && Enabled(b, Advance(Login(c), false)) && Apply(b, Advance(Login(c), false)) == l
            && Enabled(l, Move(Login(c))) && Apply(l, Move(Login(c))) == LoginAt(s, sh, s.holder, c, Free, RmPeek(false), ng)
  {
    var held := s.holder[g := Login(c)];
    LoginMoves(LoginAt(s, sh, held, c, Holding(g), pc, ng), c, Holding(g), pc, false);
    LoginMoves(LoginAt(s, sh, held, c, Holding(g), Leave(false), ng), c, Holding(g), Leave(false), true);
    assert held - {g} == s.holder;
  }

  lemma FailedCloses(s: State, c: ControlId)
    ensures var f := MovedOn(s, c, Free, FailSignal(true));
            && Enabled(f, Move(Login(c)))
            && Apply(f, Move(Login(c)))
               == MovedOn(s, c, Free, LoginDone(false, true)).(sh := s.sh.(closed := s.sh.closed + {c}))
  {
    LoginMoves(MovedOn(s, c, Free, FailSignal(true)), c, Free, FailSignal(true), true);
  }

  /** From the table back out, and closed. */
  lemma FailedLoginLeaves(p: State, c: ControlId) returns (steps: seq<Step>)
    requires Login(c) in p.tasks && p.tasks[Login(c)] == Task(Free, InLogin(RmPeek(false)))
    requires IsCurrent(p.sh.table, Sid(p.sh, c), c) && p.sh.table[Sid(p.sh, c)].gate !in p.holder
    ensures Runs(p, steps) && OwnMoves(steps, Login(c))
    ensures After(p, steps)
         == MovedOn(p, c, Free, LoginDone(false, true)).(
              sh := CleanedUpBy(p.sh, c).(closed := p.sh.closed + {c}))
  {
    assert MovedOn(p, c, Free, RmPeek(false)) == p by { assert p.tasks[Login(c) := p.tasks[Login(c)]] == p.tasks; }
    var removal := RemovalAlone(p, c, false);
    var out := p.(sh := CleanedUpBy(p.sh, c));
    FailedCloses(out, c);
    assert After(p, removal) == MovedOn(out, c, Free, FailSignal(true));
    hide Apply, Enabled;
    RunsFirst(After(p, removal), Move(Login(c)), []);
    RunsAppend(p, removal, [Move(Login(c))] + []);
    steps := removal + ([Move(Login(c))] + []);
  }

  /** A login that nobody interferes with, but that the agent index refuses (at GoOnline) or whose
      acknowledgement cannot be written (at Ack), ends with its control closed, never activated and
      out of the table again; a control that was there before stays closed and replaced. */
  lemma FailedLoginAlone(s: State, sid: SessionId, acknowledging: bool) returns (steps: seq<Step>)
    requires GateFor(s, sid) !in s.holder
    ensures var c := s.nextGeneration;
            && Runs(s, steps) && steps != [] && steps[0] == StartLogin(sid)
            && forall step <- steps[1..] :: step.Advance? && step.task == Login(c)
    ensures var s', c := After(s, steps), s.nextGeneration;
            && s'.sh.table == s.sh.table - {sid} && c in s'.sh.closed && s'.sh.activated == s.sh.activated
            && s'.sh.closed == s.sh.closed + {c} + (if sid in s.sh.table then {s.sh.table[sid].control} else {})
            && s'.sh.exits == (if sid in s.sh.table then s.sh.exits[s.sh.table[sid].control := ReplacedBy(c)] else s.sh.exits)[c := CleanedUp]
            && s'.holder == s.holder && s'.tasks == s.tasks[Login(c) := Task(Free, InLogin(LoginDone(false, true)))]
  {
    var c, g, ng := s.nextGeneration, GateFor(s, sid), GatesAfter(s, sid);
    var sh := OldClosed(s.sh, c, sid, g);
    var arrive := LoginArrives(s, sid);
    var held := s.holder[g := Login(c)];
    LoginAcks(s, sh, held, c, g, ng);
    LoginTurnsBack(s, sh, c, g, GoOnline, ng);
    LoginTurnsBack(s, sh, c, g, Ack, ng);
    var p := LoginAt(s, sh, s.holder, c, Free, RmPeek(false), ng);
    FailedLoginCame(s, sid, p, MovedOn(p, c, Free, LoginDone(false, true)).(sh := CleanedUpBy(sh, c).(closed := sh.closed + {c})));
    hide Apply, Enabled, OldClosed, CleanedUpBy;
    var leave := FailedLoginLeaves(p, c);
    steps := FailedRun(s, arrive, LoginAt(s, sh, held, c, Holding(g), GoOnline, ng), acknowledging, c,
                       LoginAt(s, sh, held, c, Holding(g), Ack, ng), LoginAt(s, sh, held, c, Holding(g), Leave(false), ng), p, leave);
  }

  /** The pieces of that run, one after the other. */
  lemma FailedRun(s: State, arrive: seq<Step>, online: State, acknowledging: bool, c: ControlId, ack: State, left: State, p: State,
                  leave: seq<Step>) returns (steps: seq<Step>)
    requires Runs(s, arrive) && After(s, arrive) == online && arrive != [] && OwnMoves(arrive[1..], Login(c))
    requires Enabled(online, Move(Login(c))) && Apply(online, Move(Login(c))) == ack
    requires Enabled(online, Advance(Login(c), false)) && Apply(online, Advance(Login(c), false)) == left
    requires Enabled(ack, Advance(Login(c), false)) && Apply(ack, Advance(Login(c), false)) == left
    requires Enabled(left, Move(Login(c))) && Apply(left, Move(Login(c))) == p
    requires Runs(p, leave) && OwnMoves(leave, Login(c))
    ensures Runs(s, steps) && After(s, steps) == After(p, leave)
    ensures steps != [] && steps[0] == arrive[0] && OwnMoves(steps[1..], Login(c))
  {
    hide Apply, Enabled, OwnMoves;
    var move, back := Move(Login(c)), Advance(Login(c), false);
    RunsFirst(left, move, leave);
    OneMoreMove(c, true, leave);
    var rest := [back] + ([move] + leave);
    OneMoreMove(c, false, [move] + leave);
    if acknowledging {
      RunsFirst(ack, back, [move] + leave);
      RunsFirst(online, move, rest);
      OneMoreMove(c, true, rest);
      rest := [move] + rest;
    } else {
      RunsFirst(online, back, [move] + leave);
    }
    RunsAppend(s, arrive, rest);
    steps := arrive + rest;
    assert steps[1..] == arrive[1..] + rest;
    OwnAppend(arrive[1..], rest, Login(c));
  }

  lemma OneMoreMove(c: ControlId, choice: bool, rest: seq<Step>)
    requires OwnMoves(rest, Login(c))
    ensures OwnMoves([Advance(Login(c), choice)] + rest, Login(c))
  {
  }

  lemma OwnAppend(a: seq<Step>, b: seq<Step>, t: TaskId)
    requires OwnMoves(a, t) && OwnMoves(b, t)
    ensures OwnMoves(a + b, t)
  {
  }

  /** What the table and the tasks come to. */
  lemma FailedLoginCame(s: State, sid: SessionId, p: State, final: State)
    requires var c, g := s.nextGeneration, GateFor(s, sid);
             && p == LoginAt(s, OldClosed(s.sh, c, sid, g), s.holder, c, Free, RmPeek(false), GatesAfter(s, sid))
             && final == MovedOn(p, c, Free, LoginDone(false, true)).(sh := CleanedUpBy(p.sh, c).(closed := p.sh.closed + {c}))
    ensures var c, g := s.nextGeneration, GateFor(s, sid);
            && Sid(p.sh, c) == sid && IsCurrent(p.sh.table, sid, c) && p.sh.table[sid].gate == g
            && final.sh.table == s.sh.table - {sid} && final.sh.activated == s.sh.activated
            && final.sh.closed == s.sh.closed + {c} + (if sid in s.sh.table then {s.sh.table[sid].control} else {})
            && final.sh.exits == (if sid in s.sh.table then s.sh.exits[s.sh.table[sid].control := ReplacedBy(c)] else s.sh.exits)[c := CleanedUp]
            && final.holder == s.holder && final.tasks == s.tasks[Login(c) := Task(Free, InLogin(LoginDone(false, true)))]
  {
  }
}
