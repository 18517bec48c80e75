/** What the shutdown of a control and its Drop give back, and what is left behind for good. */
module LeaseReclaim {
  import opened Wrappers
  import opened LeaseTables
  import opened LeaseProtocol
  import opened LeaseSafety
  import opened LeaseTheorems

  // ---------- what a shutdown gives back ----------

  /** The reader is inside a registration that has passed the check of `closed`. */
  predicate Registering(r: Reader) {
    match r
    case Detaching(_, k) => k.Claim?
    case FreeingPort(_, _, k) => k.Claim?
    case FreeingName(_, k) => k.Claim?
    case ClaimingName(_) => true
    case ClaimingPort(_) => true
    case Starting(_) => true
    case Inserting(_) => true
    case _ => false
  }

  function RequestOf(r: Reader): Req
    requires Registering(r)
  {
    match r
    case Detaching(_, k) => k.req
    case FreeingPort(_, _, k) => k.req
    case FreeingName(_, k) => k.req
    case ClaimingName(req) => req
    case ClaimingPort(req) => req
    case Starting(req) => req
    case Inserting(req) => req
  }

  // ---------- what each control keeps on its own ----------

  /** A registration detaches the name it asks for, with a valid port, and claims only a name
      that is not empty. */
  predicate ReaderTidy(r: Reader) {
    && (r.Detaching? && r.next.Claim? ==> r.name == r.next.req.name)
    && (r.FreeingPort? && r.next.Claim? ==> r.name == r.next.req.name)
    && (r.FreeingName? && r.next.Claim? ==> r.name == r.next.req.name)
    && (Registering(r) ==> ValidPort(RequestOf(r).slot))
    && (r.ClaimingPort? || r.Starting? || r.Inserting? ==> r.req.name != "")
  }

  /** `finished` is stored only by the end of a shutdown; a dropped control has no tasks, and
      unless `finished` was stored it has no tunnels. */
  predicate Tidy(ctl: Ctl) {
    && ReaderTidy(ctl.reader)
    && (ctl.finished ==> ctl.cleanup.Finished? || ctl.cleanup.Dropped?)
    && (ctl.cleanup.NotStarted? ==> ctl.waiting == 0)
    && (!Alive(ctl) ==> ctl.reader.Ended? && ctl.waiting == 0)
    && (!Alive(ctl) && !ctl.finished ==> ctl.tunnels == map[])
    && (ctl.cleanup.Draining? ==> ctl.tunnels == map[])
  }

  ghost predicate AllTidy(s: State) {
    forall c <- s.ctls :: Tidy(s.ctls[c])
  }

  lemma OnlyTheActor(s: State, step: Step)
    requires Enabled(s, step)
    ensures Actor(step) in Apply(s, step).ctls
    ensures Apply(s, step).ctls == s.ctls[Actor(step) := Apply(s, step).ctls[Actor(step)]]
  {
    if step.NewTunnel? {
      assert s.ctls[step.c := s.ctls[step.c]] == s.ctls;
    }
    if step.Read? {
      assert s.ctls[step.c := s.ctls[step.c]] == s.ctls;
    }
  }

  /** The reader is taking an older tunnel of the name away. */
  predicate Replacing(r: Reader) {
    r.Detaching? || r.FreeingPort? || r.FreeingName?
  }

  lemma ReaderStaysTidy(names: Registry, ports: Ports, c: Owner, tunnels: Tunnels, reader: Reader, starts: bool)
    requires ReaderTidy(reader)
    ensures ReaderTidy(ReadEffect(names, ports, c, tunnels, reader, starts).reader)
  {
    hide ValidPort, WithoutOwned, WithoutSlot;
  }

  lemma ReadMovesTunnels(names: Registry, ports: Ports, c: Owner, tunnels: Tunnels, reader: Reader, starts: bool)
    ensures var e := ReadEffect(names, ports, c, tunnels, reader, starts);
            e.tunnels == tunnels || reader.Detaching? || reader.Inserting?
  {
    hide WithoutOwned, WithoutSlot;
  }

  lemma ReadTidy(s: State, c: Owner, starts: bool)
    requires Enabled(s, Read(c, starts)) && Tidy(s.ctls[c])
    ensures Tidy(Apply(s, Read(c, starts)).ctls[c])
  {
    hide ReaderTidy, ReadEffect;
    ReaderStaysTidy(s.registry, s.ports, c, s.ctls[c].tunnels, s.ctls[c].reader, starts);
    ReadMovesTunnels(s.registry, s.ports, c, s.ctls[c].tunnels, s.ctls[c].reader, starts);
  }

  lemma ActorTidy(s: State, step: Step)
    requires Enabled(s, step) && !step.Read? && (Actor(step) in s.ctls ==> Tidy(s.ctls[Actor(step)]))
    ensures Tidy(Apply(s, step).ctls[Actor(step)])
  {
  }

  lemma StepTidy(s: State, step: Step)
    requires AllTidy(s) && Enabled(s, step)
    ensures AllTidy(Apply(s, step))
  {
    OnlyTheActor(s, step);
    assert Actor(step) in s.ctls ==> Tidy(s.ctls[Actor(step)]);
    match step {
      case Read(c, starts) => ReadTidy(s, c, starts);
      case _ => ActorTidy(s, step);
    }
    hide Tidy;
  }

  lemma {:induction false} RunTidy(s: State, steps: seq<Step>)
    requires AllTidy(s) && Runs(s, steps)
    ensures AllTidy(After(s, steps))
    decreases |steps|
  {
    if steps != [] {
      StepTidy(s, steps[0]);
      RunTidy(Apply(s, steps[0]), steps[1..]);
    }
  }

  lemma ReachableIsSound(steps: seq<Step>)
    requires Runs(Start, steps)
    ensures Inv(After(Start, steps)) && AllTidy(After(Start, steps))
  {
    hide Inv;
    StartKept();
    RunKept(Start, steps);
    RunTidy(Start, steps);
  }

  // ---------- a shutdown with no registration in flight ----------

  predicate Drained(ctl: Ctl) {
    !ctl.cleanup.NotStarted? && ctl.closed && ctl.tunnels == map[] && !Registering(ctl.reader)
    && (ctl.cleanup.Dropping? ==> ctl.cleanup.todo == [])
  }

  /** Nothing new is held, and nothing with another port. */
  predicate Shrunk(now: Holding, before: Holding) {
    forall n <- now :: n in before && (now[n].Some? ==> now[n] == before[n])
  }

  lemma DrainedRead(s: State, c: Owner, starts: bool)
    requires Enabled(s, Read(c, starts)) && Drained(s.ctls[c])
    ensures var ctl' := Apply(s, Read(c, starts)).ctls[c];
            Drained(ctl') && Shrunk(ReaderHolds(ctl'.reader), ReaderHolds(s.ctls[c].reader))
  {
  }

  lemma NothingIsListed(order: seq<(Name, Option<Slot>)>, tunnels: Tunnels)
    requires Lists(order, tunnels) && tunnels == map[]
    ensures order == []
  {
    if order != [] {
      ListedIsThere(order, tunnels, 0);
    }
  }

  lemma ListedIsThere(order: seq<(Name, Option<Slot>)>, tunnels: Tunnels, i: nat)
    requires Lists(order, tunnels) && i < |order|
    ensures order[i].0 in tunnels
  {
  }

  lemma DrainedActs(s: State, step: Step)
    requires Enabled(s, step) && !step.Read? && Actor(step) in s.ctls && Drained(s.ctls[Actor(step)])
    ensures var ctl' := Apply(s, step).ctls[Actor(step)];
            Drained(ctl') && Shrunk(ReaderHolds(ctl'.reader), ReaderHolds(s.ctls[Actor(step)].reader))
  {
    if step.Drop? {
      NothingIsListed(step.order, s.ctls[step.c].tunnels);
    }
  }

  lemma DrainedStep(s: State, step: Step, c: Owner)
    requires Enabled(s, step) && c in s.ctls && Drained(s.ctls[c])
    ensures var s' := Apply(s, step);
            c in s'.ctls && Drained(s'.ctls[c]) && Shrunk(ReaderHolds(s'.ctls[c].reader), ReaderHolds(s.ctls[c].reader))
  {
    OnlyTheActor(s, step);
    if Actor(step) == c {
      match step
      case Read(_, starts) => DrainedRead(s, c, starts);
      case _ => DrainedActs(s, step);
    }
  }

  lemma {:induction false} DrainedStays(s: State, steps: seq<Step>, c: Owner)
    requires Runs(s, steps) && c in s.ctls && Drained(s.ctls[c])
    ensures var s' := After(s, steps);
            c in s'.ctls && Drained(s'.ctls[c]) && Shrunk(ReaderHolds(s'.ctls[c].reader), ReaderHolds(s.ctls[c].reader))
    decreases |steps|
  {
    if steps != [] {
      hide Drained, ReaderHolds;
      DrainedStep(s, steps[0], c);
      DrainedStays(Apply(s, steps[0]), steps[1..], c);
    }
  }

  /** The drain has come to its end. */
  predicate PastDrain(cl: Cleanup) {
    !cl.NotStarted? && !cl.Draining?
  }

  /** When a shutdown starts to drain while no registration of the control is in flight, then
      after the drain every drained name and port is free or has another owner, and the control
      owns nothing but what its reader is just releasing; with the reader between messages or
      ended, no name and no port is left under its owner. */
  lemma ShutdownReclaims(steps: seq<Step>, c: Owner, order: seq<(Name, Option<Slot>)>, more: seq<Step>)
    requires Runs(Start, steps) && Enabled(After(Start, steps), BeginCleanup(c, order))
    requires Runs(Apply(After(Start, steps), BeginCleanup(c, order)), more)
    requires !Registering(After(Start, steps).ctls[c].reader)
    ensures var s := After(Apply(After(Start, steps), BeginCleanup(c, order)), more);
            && c in s.ctls
            && (PastDrain(s.ctls[c].cleanup) ==> NamesOf(s, c) == ReaderHolds(s.ctls[c].reader).Keys)
            && (PastDrain(s.ctls[c].cleanup) && (s.ctls[c].reader.Idle? || s.ctls[c].reader.Ended?) ==>
                  NamesOf(s, c) == {} && SlotsOf(s, c) == {})
    ensures var s := After(Apply(After(Start, steps), BeginCleanup(c, order)), more);
            PastDrain(s.ctls[c].cleanup) ==>
              forall i :: 0 <= i < |order| ==>
                order[i].0 !in NamesOf(s, c) && (order[i].1.Some? ==> order[i].1.value !in SlotsOf(s, c))
  {
    hide Inv;
    ReachableIsSound(steps);
    var s0 := After(Start, steps);
    var s1 := Apply(s0, BeginCleanup(c, order));
    LeaseSafety.StepKept(s0, BeginCleanup(c, order));
    RunKept(s1, more);
    DrainedStays(s1, more, c);
    var s := After(s1, more);
    NamesAreHeld(s, c);
    assert forall slot <- SlotsOf(s, c) :: s.ports[slot] in NamesOf(s, c);
    if PastDrain(s.ctls[c].cleanup) {
      assert CleanupHolds(s.ctls[c].cleanup) == map[];
      forall i | 0 <= i < |order|
        ensures order[i].0 !in NamesOf(s, c) && (order[i].1.Some? ==> order[i].1.value !in SlotsOf(s, c))
      {
        DrainedIsNotTheReaders(s0, s, c, order[i].0, order[i].1);
      }
    }
  }

  lemma DrainedIsNotTheReaders(s0: State, s: State, c: Owner, n: Name, slot: Option<Slot>)
    requires Inv(s0) && c in s0.ctls && n in s0.ctls[c].tunnels && s0.ctls[c].tunnels[n] == slot
    requires Inv(s) && c in s.ctls && Holds(s.ctls[c]) == ReaderHolds(s.ctls[c].reader)
    requires Shrunk(ReaderHolds(s.ctls[c].reader), ReaderHolds(s0.ctls[c].reader))
    ensures n !in NamesOf(s, c) && (slot.Some? ==> slot.value !in SlotsOf(s, c))
  {
    hide Inv;
    NamesAreHeld(s0, c);
    NamesAreHeld(s, c);
    Facts(s0, c);
    HoldsByPlace(s0.ctls[c]);
    assert n in Holds(s0.ctls[c]) && Holds(s0.ctls[c])[n] == slot;
    if slot.Some? && slot.value in SlotsOf(s, c) {
      var m := s.ports[slot.value];
      PortHasOneName(s0, c, n, m, slot.value);
    }
  }

  lemma PortHasOneName(s: State, c: Owner, n: Name, m: Name, slot: Slot)
    requires Inv(s) && c in s.ctls && n in Holds(s.ctls[c]) && Holds(s.ctls[c])[n] == Some(slot)
    requires m in Holds(s.ctls[c]) && Holds(s.ctls[c])[m] == Some(slot)
    ensures n == m
  {
    hide Inv;
    NamesAreHeld(s, c);
  }

  // ---------- what is left behind ----------

  /** The shutdown has finished and the reader has ended. */
  predicate Over(ctl: Ctl) {
    (ctl.cleanup.Finished? || !Alive(ctl)) && ctl.reader.Ended?
  }

  /** After the shutdown has finished and the reader has ended, the names under the owner are
      the tunnels in the control's manager, until Drop takes them out of it. */
  lemma LeftBehindIsTheManager(steps: seq<Step>, c: Owner)
    requires Runs(Start, steps)
    ensures var s := After(Start, steps);
            c in s.ctls && Over(s.ctls[c]) && !s.ctls[c].cleanup.Dropping? ==>
              && NamesOf(s, c) == s.ctls[c].tunnels.Keys
              && (NamesOf(s, c) == {} && SlotsOf(s, c) == {} <==> |s.ctls[c].tunnels| == 0)
  {
    ReachableIsSound(steps);
    if c in After(Start, steps).ctls && Over(After(Start, steps).ctls[c]) && !After(Start, steps).ctls[c].cleanup.Dropping? {
      hide Inv;
      ManagerHasTheNames(After(Start, steps), c);
    }
  }

  lemma ManagerHasTheNames(s: State, c: Owner)
    requires Inv(s) && c in s.ctls && Over(s.ctls[c]) && !s.ctls[c].cleanup.Dropping?
    ensures NamesOf(s, c) == s.ctls[c].tunnels.Keys
    ensures NamesOf(s, c) == {} && SlotsOf(s, c) == {} <==> |s.ctls[c].tunnels| == 0
  {
    hide Inv;
    NamesAreHeld(s, c);
    assert Holds(s.ctls[c]) == s.ctls[c].tunnels;
    assert forall slot <- SlotsOf(s, c) :: s.ports[slot] in NamesOf(s, c);
    if |s.ctls[c].tunnels| == 0 {
      assert s.ctls[c].tunnels == map[];
    }
  }

  /** Dropped with `finished` stored, or about to be. */
  predicate Settled(ctl: Ctl) {
    Over(ctl) && ctl.finished && !ctl.cleanup.Dropping?
  }

  lemma SettledStep(s: State, step: Step, c: Owner)
    requires Enabled(s, step) && c in s.ctls && Settled(s.ctls[c])
    ensures var s' := Apply(s, step); c in s'.ctls && Settled(s'.ctls[c]) && s'.ctls[c].tunnels == s.ctls[c].tunnels
  {
    OnlyTheActor(s, step);
  }

  lemma {:induction false} SettledStays(s: State, steps: seq<Step>, c: Owner)
    requires Runs(s, steps) && c in s.ctls && Settled(s.ctls[c])
    ensures var s' := After(s, steps); c in s'.ctls && Settled(s'.ctls[c]) && s'.ctls[c].tunnels == s.ctls[c].tunnels
    decreases |steps|
  {
    if steps != [] {
      hide Settled;
      SettledStep(s, steps[0], c);
      SettledStays(Apply(s, steps[0]), steps[1..], c);
    }
  }

  lemma {:induction false} RunsAppend(s: State, a: seq<Step>, b: seq<Step>)
    requires Runs(s, a) && Runs(After(s, a), b)
    ensures Runs(s, a + b) && After(s, a + b) == After(After(s, a), b)
    decreases |a|
  {
    if a == [] {
      assert a + b == b;
    } else {
      RunsAppend(Apply(s, a[0]), a[1..], b);
      assert (a + b)[0] == a[0] && (a + b)[1..] == a[1..] + b;
    }
  }

  /** Running one step and then others. */
  lemma RunsFirst(s: State, step: Step, rest: seq<Step>)
    requires Enabled(s, step) && Runs(Apply(s, step), rest)
    ensures Runs(s, [step] + rest) && After(s, [step] + rest) == After(Apply(s, step), rest)
  {
    assert ([step] + rest)[1..] == rest;
  }

  predicate Own(steps: seq<Step>, c: Owner) {
    forall step <- steps :: Actor(step) == c
  }

  predicate Submap<K, V(==)>(a: map<K, V>, b: map<K, V>) {
    forall k <- a :: k in b && a[k] == b[k]
  }

  lemma CleanReleases(s: State, c: Owner)
    requires c in s.ctls && Emptying(s.ctls[c].cleanup)
    ensures var s' := Apply(s, Clean(c)); Submap(s'.registry, s.registry) && Submap(s'.ports, s.ports)
  {
  }

  lemma CleanMovesOn(s: State, c: Owner)
    requires c in s.ctls && Emptying(s.ctls[c].cleanup)
    ensures var cl := s.ctls[c].cleanup;
            Apply(s, Clean(c)).ctls ==
            s.ctls[c := s.ctls[c].(cleanup :=
              if cl.todo == [] then if cl.Draining? then Closing else Dropped
              else if cl.portFreed then Emptied(cl, cl.todo[1..], false)
              else Emptied(cl, cl.todo, true))]
  {
    hide WithoutSlot, WithoutOwned;
  }

  /** A drain left alone comes to its end. */
  lemma {:induction false} DrainEnds(s: State, c: Owner) returns (steps: seq<Step>)
    requires c in s.ctls && Emptying(s.ctls[c].cleanup)
    ensures Runs(s, steps) && Own(steps, c) && forall step <- steps :: step == Clean(c)
    ensures var s' := After(s, steps);
            && s'.ctls == s.ctls[c := s.ctls[c].(cleanup := if s.ctls[c].cleanup.Draining? then Closing else Dropped)]
            && Submap(s'.registry, s.registry) && Submap(s'.ports, s.ports)
    decreases |s.ctls[c].cleanup.todo|, !s.ctls[c].cleanup.portFreed
  {
    var s' := Apply(s, Clean(c));
    CleanReleases(s, c);
    CleanMovesOn(s, c);
    if s.ctls[c].cleanup.todo == [] {
      steps := [Clean(c)];
      assert steps[1..] == [];
    } else {
      hide Apply;
      var rest := DrainEnds(s', c);
      steps := [Clean(c)] + rest;
      RunsFirst(s, Clean(c), rest);
    }
  }

  /** The waiting calls of shutdown return. */
  lemma {:induction false} WaitersLeave(s: State, c: Owner) returns (steps: seq<Step>)
    requires c in s.ctls
    ensures Runs(s, steps) && Own(steps, c)
    ensures After(s, steps) == Put(s, c, s.ctls[c].(waiting := 0))
    decreases s.ctls[c].waiting
  {
    if s.ctls[c].waiting == 0 {
      steps := [];
      assert s.ctls[c := s.ctls[c].(waiting := 0)] == s.ctls;
    } else {
      var s' := Apply(s, StopWaiting(c));
      var rest := WaitersLeave(s', c);
      steps := [StopWaiting(c)] + rest;
      RunsFirst(s, StopWaiting(c), rest);
      assert s'.ctls[c := s'.ctls[c].(waiting := 0)] == s.ctls[c := s.ctls[c].(waiting := 0)];
    }
  }

  lemma ListedWithOneMore(rest: seq<(Name, Option<Slot>)>, tunnels: Tunnels, n: Name)
    requires n in tunnels && Lists(rest, tunnels - {n})
    ensures Lists([(n, tunnels[n])] + rest, tunnels)
  {
    var order := [(n, tunnels[n])] + rest;
    forall m <- tunnels ensures (m, tunnels[m]) in order {
      if m != n {
        assert (m, (tunnels - {n})[m]) in rest;
      }
    }
  }

  lemma {:induction false} TunnelsCanBeListed(tunnels: Tunnels) returns (order: seq<(Name, Option<Slot>)>)
    ensures Lists(order, tunnels)
    decreases |tunnels|
  {
    if tunnels == map[] {
      order := [];
    } else {
      var n :| n in tunnels;
      var rest := TunnelsCanBeListed(tunnels - {n});
      ListedWithOneMore(rest, tunnels, n);
      order := [(n, tunnels[n])] + rest;
    }
  }

  /** Unless `finished` was stored, everything left can still be given back. */
  lemma DropGivesBack(s: State, c: Owner) returns (more: seq<Step>)
    requires Inv(s) && AllTidy(s) && c in s.ctls && Over(s.ctls[c]) && !s.ctls[c].finished
    ensures Runs(s, more) && Own(more, c) && NamesOf(After(s, more), c) == {}
  {
    hide Inv;
    var toDrop, s1 := [], s;
    if s.ctls[c].cleanup.Finished? {
      var leave := WaitersLeave(s, c);
      var s0 := After(s, leave);
      var order := TunnelsCanBeListed(s0.ctls[c].tunnels);
      RunsFirst(s0, Drop(c, order), []);
      RunsAppend(s, leave, [Drop(c, order)]);
      toDrop, s1 := leave + [Drop(c, order)], Apply(s0, Drop(c, order));
    }
    RunTidy(s, toDrop);
    assert Tidy(s1.ctls[c]);
    var drain := [];
    if s1.ctls[c].cleanup.Dropping? {
      drain := DrainEnds(s1, c);
    }
    RunsAppend(s, toDrop, drain);
    more := toDrop + drain;
    RunKept(s, more);
    ManagerHasTheNames(After(s, more), c);
  }

  /** Once the shutdown has finished and the reader has ended, a name is left behind for good -
      no step of anybody ever gives it back - exactly when it is in the manager and `finished`
      was stored, for then Drop does nothing. */
  lemma LeftBehindIsForever(steps: seq<Step>, c: Owner, n: Name)
    requires Runs(Start, steps) && c in After(Start, steps).ctls && Over(After(Start, steps).ctls[c])
    ensures var s := After(Start, steps);
            (forall more :: Runs(s, more) ==> n in NamesOf(After(s, more), c))
            <==> n in s.ctls[c].tunnels && s.ctls[c].finished
  {
    hide Inv;
    ReachableIsSound(steps);
    var s := After(Start, steps);
    assert Tidy(s.ctls[c]);
    if s.ctls[c].finished {
      forall more | Runs(s, more) ensures NamesOf(After(s, more), c) == s.ctls[c].tunnels.Keys {
        RunKept(s, more);
        SettledStays(s, more, c);
        ManagerHasTheNames(After(s, more), c);
      }
      assert Runs(s, []) && After(s, []) == s;
    } else {
      var more := DropGivesBack(s, c);
      assert n !in NamesOf(After(s, more), c);
    }
  }

  // ---------- when something can be left behind ----------

  /** The request could be granted once the control's own leases are gone: the name is free or
      its own, and so is the port. */
  predicate Attainable(s: State, c: Owner, req: Req) {
    && req.name != "" && (req.name in s.registry ==> s.registry[req.name] == c)
    && (req.slot.Some? && req.slot.value in s.ports ==> s.ports[req.slot.value] in NamesOf(s, c))
  }

  /** The control is gone, and has taken tunnels with it that nobody gives back. */
  predicate LeftBehind(s: State, c: Owner) {
    c in s.ctls && s.ctls[c].cleanup.Dropped? && s.ctls[c].finished && s.ctls[c].tunnels != map[]
  }

  ghost predicate CanBeLeftBehind(s: State, c: Owner) {
    exists more :: Runs(s, more) && Own(more, c) && LeftBehind(After(s, more), c)
  }

  lemma AttainableDespiteRelease(s: State, s': State, c: Owner, req: Req)
    requires Inv(s') && Attainable(s, c, req) && Submap(s'.registry, s.registry) && Submap(s'.ports, s.ports)
    ensures Attainable(s', c, req)
  {
    hide Inv;
    OwnersExist(s');
  }

  function Rank(r: Reader): nat {
    match r
    case Detaching(_, _) => 7
    case FreeingPort(_, _, _) => 6
    case FreeingName(_, _) => 5
    case ClaimingName(_) => 4
    case ClaimingPort(_) => 3
    case Starting(_) => 2
    case Inserting(_) => 1
    case _ => 0
  }

  /** The control is drained but for a registration that can be granted. */
  ghost predicate Underway(s: State, c: Owner, req: Req) {
    && Inv(s) && AllTidy(s) && c in s.ctls && s.ctls[c].cleanup.Closing? && s.ctls[c].tunnels == map[]
    && Registering(s.ctls[c].reader) && RequestOf(s.ctls[c].reader) == req && Attainable(s, c, req)
  }

  /** What such a control owns is what its reader holds. */
  lemma UnderwayOwns(s: State, c: Owner, req: Req)
    requires Underway(s, c, req)
    ensures Tidy(s.ctls[c]) && NamesOf(s, c) == ReaderHolds(s.ctls[c].reader).Keys
    ensures forall slot <- SlotsOf(s, c) :: ReaderHolds(s.ctls[c].reader)[s.ports[slot]] == Some(slot)
  {
    hide Inv;
    NamesAreHeld(s, c);
    assert Holds(s.ctls[c]) == ReaderHolds(s.ctls[c].reader);
    assert forall slot <- SlotsOf(s, c) :: s.ports[slot] in NamesOf(s, c);
  }

  lemma ReleasesAreSubmaps(s: State, c: Owner)
    requires c in s.ctls && Replacing(s.ctls[c].reader)
    ensures var s' := ReadStep(s, c, s.ctls[c], true); Submap(s'.registry, s.registry) && Submap(s'.ports, s.ports)
  {
  }

  /** The registration moves on. */
  ghost predicate MovesOn(reader: Reader, e: Effect, req: Req) {
    e.tunnels == map[] && Registering(e.reader) && RequestOf(e.reader) == req && Rank(e.reader) < Rank(reader)
  }

  lemma RegistrationMovesOn(names: Registry, ports: Ports, c: Owner, reader: Reader, req: Req)
    requires Registering(reader) && RequestOf(reader) == req && !reader.Inserting? && req.name != ""
    requires reader.ClaimingName? ==> req.name !in names
    requires reader.ClaimingPort? ==> req.slot.Some? && req.slot.value.port != 0 && req.slot.value !in ports
    ensures MovesOn(reader, ReadEffect(names, ports, c, map[], reader, true), req)
  {
    hide WithoutOwned, WithoutSlot;
  }

  lemma ReaderMovesOn(s: State, c: Owner, req: Req)
    requires Underway(s, c, req) && !s.ctls[c].reader.Inserting?
    ensures MovesOn(s.ctls[c].reader, ReadEffect(s.registry, s.ports, c, map[], s.ctls[c].reader, true), req)
  {
    UnderwayOwns(s, c, req);
    Facts(s, c);
    hide Inv, AllTidy, Holds, Book, Consistent, NamesOf, SlotsOf, ReadEffect, MovesOn;
    if s.ctls[c].reader.ClaimingName? || s.ctls[c].reader.ClaimingPort? {
      ClaimIsFree(s, c, req);
    }
    RegistrationMovesOn(s.registry, s.ports, c, s.ctls[c].reader, req);
  }

  lemma PortIsOwn(s: State, c: Owner, req: Req)
    requires Attainable(s, c, req) && req.slot.Some? && req.slot.value in s.ports
    ensures req.slot.value in SlotsOf(s, c)
  {
  }

  lemma ClaimIsFree(s: State, c: Owner, req: Req)
    requires Underway(s, c, req) && (s.ctls[c].reader.ClaimingName? || s.ctls[c].reader.ClaimingPort?)
    ensures s.ctls[c].reader.ClaimingName? ==> req.name !in s.registry
    ensures s.ctls[c].reader.ClaimingPort? ==> req.name in NamesOf(s, c)
    ensures req.slot.Some? ==> req.slot.value !in s.ports
  {
    hide Inv, AllTidy;
    UnderwayOwns(s, c, req);
    if req.slot.Some? && req.slot.value in s.ports {
      PortIsOwn(s, c, req);
    }
    assert req.name in s.registry ==> req.name in NamesOf(s, c);
  }

  lemma ClaimStaysAttainable(s: State, c: Owner, req: Req)
    requires c in s.ctls && Attainable(s, c, req)
    requires s.ctls[c].reader == ClaimingName(req) || s.ctls[c].reader == ClaimingPort(req) || s.ctls[c].reader == Starting(req)
    requires s.ctls[c].reader.ClaimingName? ==> req.name !in s.registry && (req.slot.Some? ==> req.slot.value !in s.ports)
    requires s.ctls[c].reader.ClaimingPort? ==> req.name in NamesOf(s, c)
    ensures Attainable(ReadStep(s, c, s.ctls[c], true), c, req)
  {
    match s.ctls[c].reader
    case ClaimingName(_) =>
    case ClaimingPort(_) =>
    case Starting(_) =>
  }

  lemma StaysAttainable(s: State, c: Owner, req: Req)
    requires Underway(s, c, req) && !s.ctls[c].reader.Inserting? && Inv(ReadStep(s, c, s.ctls[c], true))
    ensures Attainable(ReadStep(s, c, s.ctls[c], true), c, req)
  {
    var s' := ReadStep(s, c, s.ctls[c], true);
    if Replacing(s.ctls[c].reader) {
      ReleasesAreSubmaps(s, c);
      hide Inv, AllTidy, ReadStep, Attainable;
      AttainableDespiteRelease(s, s', c, req);
    } else {
      if !s.ctls[c].reader.Starting? {
        ClaimIsFree(s, c, req);
      }
      hide Inv, AllTidy, ReadStep, Attainable;
      ClaimStaysAttainable(s, c, req);
    }
  }

  lemma OneMoreRead(s: State, c: Owner, req: Req)
    requires Underway(s, c, req) && !s.ctls[c].reader.Inserting?
    ensures Enabled(s, Read(c, true))
    ensures var s' := Apply(s, Read(c, true));
            Underway(s', c, req) && Rank(s'.ctls[c].reader) < Rank(s.ctls[c].reader)
            && s'.ctls[c] == s.ctls[c].(reader := s'.ctls[c].reader)
  {
    ReaderMovesOn(s, c, req);
    LeaseSafety.StepKept(s, Read(c, true));
    StepTidy(s, Read(c, true));
    StaysAttainable(s, c, req);
    hide Inv, AllTidy, ReadEffect, Attainable, RequestOf, Registering, Rank;
  }

  lemma {:induction false} ReaderArrives(s: State, c: Owner, req: Req) returns (steps: seq<Step>)
    requires Underway(s, c, req)
    ensures Runs(s, steps) && Own(steps, c)
    ensures var s' := After(s, steps);
            c in s'.ctls && s'.ctls[c] == s.ctls[c].(tunnels := map[req.name := req.slot], reader := Idle)
    decreases Rank(s.ctls[c].reader)
  {
    var s' := Apply(s, Read(c, true));
    if s.ctls[c].reader.Inserting? {
      steps := [Read(c, true)];
      RunsFirst(s, Read(c, true), []);
    } else {
      hide Inv, AllTidy, Attainable;
      OneMoreRead(s, c, req);
      var rest := ReaderArrives(s', c, req);
      RunsFirst(s, Read(c, true), rest);
      steps := [Read(c, true)] + rest;
    }
  }

  /** From the end of the reader to the end of the control, with one more call of shutdown, that
      of the reader's own task, waiting when the first one is marked finished. */
  lemma FinishedWhileWaiting(s: State, c: Owner) returns (steps: seq<Step>)
    requires c in s.ctls && s.ctls[c].reader.Idle? && s.ctls[c].cleanup.Closing? && s.ctls[c].closed
    ensures Runs(s, steps) && Own(steps, c)
    ensures var s' := After(s, steps);
            && c in s'.ctls && s'.ctls[c].cleanup.Dropped? && s'.ctls[c].finished && s'.ctls[c].tunnels == s.ctls[c].tunnels
            && s'.registry == s.registry && s'.ports == s.ports
  {
    var s1 := Apply(s, EndReader(c));
    var s2 := Apply(s1, Wait(c));
    var s3 := Apply(s2, MarkFinished(c));
    var leave := WaitersLeave(s3, c);
    var s4 := After(s3, leave);
    var order := TunnelsCanBeListed(s4.ctls[c].tunnels);
    RunsFirst(s4, Drop(c, order), []);
    RunsAppend(s3, leave, [Drop(c, order)]);
    RunsFirst(s2, MarkFinished(c), leave + [Drop(c, order)]);
    RunsFirst(s1, Wait(c), [MarkFinished(c)] + (leave + [Drop(c, order)]));
    RunsFirst(s, EndReader(c), [Wait(c)] + ([MarkFinished(c)] + (leave + [Drop(c, order)])));
    steps := [EndReader(c)] + ([Wait(c)] + ([MarkFinished(c)] + (leave + [Drop(c, order)])));
  }

  lemma GrantedIsLeftBehind(s: State, c: Owner)
    requires Inv(s) && AllTidy(s) && c in s.ctls && s.ctls[c].cleanup.Draining? && s.ctls[c].closed
    requires Registering(s.ctls[c].reader) && Attainable(s, c, RequestOf(s.ctls[c].reader))
    ensures CanBeLeftBehind(s, c)
  {
    hide Inv;
    var req := RequestOf(s.ctls[c].reader);
    assert Tidy(s.ctls[c]);
    var drain := DrainEnds(s, c);
    var s1 := After(s, drain);
    RunKept(s, drain);
    RunTidy(s, drain);
    AttainableDespiteRelease(s, s1, c, req);
    hide AllTidy, Attainable;
    var arrive := ReaderArrives(s1, c, req);
    var s2 := After(s1, arrive);
    var finish := FinishedWhileWaiting(s2, c);
    RunsAppend(s1, arrive, finish);
    RunsAppend(s, drain, arrive + finish);
    var more := drain + (arrive + finish);
    assert LeftBehind(After(s, more), c) by {
      assert req.name in After(s, more).ctls[c].tunnels;
    }
  }

  // ---------- and when it cannot ----------

  /** Somebody else has what the request needs. */
  ghost predicate Refusable(s: State, c: Owner, req: Req) {
    || req.name == ""
    || (exists d :: d != c && req.name in NamesOf(s, d))
    || (req.slot.Some? && exists d :: d != c && req.slot.value in SlotsOf(s, d))
  }

  lemma NotAttainableIsRefusable(s: State, c: Owner, req: Req)
    requires Inv(s)
    ensures !Attainable(s, c, req) <==> Refusable(s, c, req)
  {
    hide Inv;
    OwnersExist(s);
    if !Attainable(s, c, req) && req.name != "" {
      if req.name in s.registry && s.registry[req.name] != c {
        assert req.name in NamesOf(s, s.registry[req.name]);
      } else {
        assert req.slot.value in SlotsOf(s, s.registry[s.ports[req.slot.value]]);
      }
    }
  }

  lemma RefusableDespiteOwn(s: State, s': State, c: Owner, req: Req)
    requires OthersKeep(s, s', c) && Refusable(s, c, req)
    ensures Refusable(s', c, req)
  {
    hide NamesOf, SlotsOf;
    if d :| d != c && req.name in NamesOf(s, d) {
      assert req.name in NamesOf(s', d);
    } else if req.slot.Some? {
      if d :| d != c && req.slot.value in SlotsOf(s, d) {
        assert req.slot.value in SlotsOf(s', d);
      }
    }
  }

  /** The control is being shut down, has no tunnels, and gets none. */
  ghost predicate Hopeless(s: State, c: Owner) {
    && c in s.ctls && s.ctls[c].closed && !s.ctls[c].cleanup.NotStarted? && s.ctls[c].tunnels == map[]
    && (Registering(s.ctls[c].reader) ==> !Attainable(s, c, RequestOf(s.ctls[c].reader)))
  }

  /** A registration that cannot be granted has not got its name and port. */
  lemma HopelessHasNothing(s: State, c: Owner)
    requires Inv(s) && AllTidy(s) && Hopeless(s, c)
    ensures !s.ctls[c].reader.Starting? && !s.ctls[c].reader.Inserting?
    ensures s.ctls[c].reader.ClaimingPort? ==>
              var slot := s.ctls[c].reader.req.slot; slot.Some? && slot.value in s.ports
  {
    hide Inv;
    assert Tidy(s.ctls[c]);
    Facts(s, c);
    NamesAreHeld(s, c);
    var r := s.ctls[c].reader;
    if r.Starting? || r.Inserting? || r.ClaimingPort? {
      assert r.req.name in Holds(s.ctls[c]) && Holds(s.ctls[c])[r.req.name] == ReaderHolds(r)[r.req.name] by {
        HoldsByPlace(s.ctls[c]);
      }
      assert r.req.name in NamesOf(s, c);
    }
  }

  lemma NothingIsInserted(s: State, step: Step)
    requires Enabled(s, step) && Actor(step) in s.ctls
    requires var ctl := s.ctls[Actor(step)];
             ctl.closed && !ctl.cleanup.NotStarted? && ctl.tunnels == map[] && !ctl.reader.Starting? && !ctl.reader.Inserting?
             && (ctl.reader.ClaimingPort? ==> ctl.reader.req.slot.Some? && ctl.reader.req.slot.value in s.ports)
    ensures var r := s.ctls[Actor(step)].reader;
            var ctl' := Apply(s, step).ctls[Actor(step)];
            && ctl'.closed && !ctl'.cleanup.NotStarted? && ctl'.tunnels == map[]
            && (Registering(ctl'.reader) ==> Registering(r) && RequestOf(ctl'.reader) == RequestOf(r))
  {
  }

  lemma HopelessStep(s: State, step: Step, c: Owner)
    requires Inv(s) && AllTidy(s) && Hopeless(s, c) && Enabled(s, step) && Actor(step) == c
    ensures Hopeless(Apply(s, step), c)
  {
    hide Inv, AllTidy;
    HopelessHasNothing(s, c);
    StepKeepsOthers(s, step);
    OnlyTheActor(s, step);
    NothingIsInserted(s, step);
    var s' := Apply(s, step);
    LeaseSafety.StepKept(s, step);
    hide Apply, Enabled, Attainable, OthersKeep, Refusable, Registering, RequestOf;
    if Registering(s.ctls[c].reader) {
      var req := RequestOf(s.ctls[c].reader);
      NotAttainableIsRefusable(s, c, req);
      RefusableDespiteOwn(s, s', c, req);
      NotAttainableIsRefusable(s', c, req);
    }
  }

  lemma {:induction false} HopelessRun(s: State, steps: seq<Step>, c: Owner)
    requires Inv(s) && AllTidy(s) && Hopeless(s, c) && Runs(s, steps) && Own(steps, c)
    ensures Hopeless(After(s, steps), c)
    decreases |steps|
  {
    if steps != [] {
      hide Inv, AllTidy, Hopeless;
      HopelessStep(s, steps[0], c);
      LeaseSafety.StepKept(s, steps[0]);
      StepTidy(s, steps[0]);
      HopelessRun(Apply(s, steps[0]), steps[1..], c);
    }
  }

  /** When a shutdown starts to drain, the control can still, by steps of its own, end with a
      tunnel left behind for good exactly when a registration is in flight whose name is not
      empty and free or its own, and whose port is free or its own. */
  lemma LateRegistrationIsLeftBehind(steps: seq<Step>, c: Owner, order: seq<(Name, Option<Slot>)>)
    requires Runs(Start, steps) && Enabled(After(Start, steps), BeginCleanup(c, order))
    ensures var s := After(Start, steps);
            CanBeLeftBehind(Apply(s, BeginCleanup(c, order)), c)
            <==> Registering(s.ctls[c].reader) && Attainable(s, c, RequestOf(s.ctls[c].reader))
  {
    hide Inv;
    ReachableIsSound(steps);
    var s := After(Start, steps);
    var s1 := Apply(s, BeginCleanup(c, order));
    LeaseSafety.StepKept(s, BeginCleanup(c, order));
    StepTidy(s, BeginCleanup(c, order));
    assert forall d :: NamesOf(s1, d) == NamesOf(s, d);
    hide AllTidy;
    if Registering(s.ctls[c].reader) && Attainable(s, c, RequestOf(s.ctls[c].reader)) {
      GrantedIsLeftBehind(s1, c);
    } else {
      forall more | Runs(s1, more) && Own(more, c) ensures !LeftBehind(After(s1, more), c) {
        HopelessRun(s1, more, c);
      }
    }
  }

  const WEB := Req("web", Some(Slot(Tcp, 8080)))

  /** Connect, ask for a tunnel, get its name and port, be signalled closed; */
  function Asking(c: Owner): seq<Step> {
    [Connect(c), NewTunnel(c, WEB), Read(c, true), Read(c, true), Read(c, true), SignalClose(c)]
  }

  /** be drained, and insert the tunnel; */
  function Outliving(c: Owner): seq<Step> {
    [BeginCleanup(c, []), Clean(c), Read(c, true), Read(c, true)]
  }

  /** end, wait while the drain's shutdown is marked finished, and be dropped. */
  function Ending(c: Owner): seq<Step> {
    [EndReader(c), Wait(c), MarkFinished(c), StopWaiting(c), Drop(c, [("web", WEB.slot)])]
  }

  function LateRun(c: Owner): seq<Step> {
    Asking(c) + (Outliving(c) + Ending(c))
  }

  /** The only control, with the name and the port. */
  function Lone(c: Owner, ctl: Ctl): State {
    State(map["web" := c], map[WEB.slot.value := "web"], map[c := ctl])
  }

  /** A concrete run that leaves a name and a port to nobody. */
  lemma LateRunLeavesAName(c: Owner)
    ensures Runs(Start, LateRun(c))
    ensures var s := After(Start, LateRun(c));
            LeftBehind(s, c) && s.registry == map["web" := c] && s.ports == map[WEB.slot.value := "web"]
  {
    hide Asking, Outliving, Ending;
    LateStart(c);
    var s := After(Start, Asking(c));
    LateMiddle(s, c);
    LateEnd(After(s, Outliving(c)), c);
    RunsAppend(s, Outliving(c), Ending(c));
    RunsAppend(Start, Asking(c), Outliving(c) + Ending(c));
  }

  lemma LateStart(c: Owner)
    ensures Runs(Start, Asking(c))
    ensures After(Start, Asking(c))
         == Lone(c, Fresh.(closed := true, reader := Starting(WEB)))
  {
    var s := Apply(Apply(Start, Connect(c)), NewTunnel(c, WEB));
    assert s == State(map[], map[], map[c := Fresh.(reader := Detaching("web", Claim(WEB)))]);
    LateClaims(s, c);
    var rest := [Read(c, true), Read(c, true), Read(c, true), SignalClose(c)];
    RunsFirst(Apply(Start, Connect(c)), NewTunnel(c, WEB), rest);
    RunsFirst(Start, Connect(c), [NewTunnel(c, WEB)] + rest);
    assert Asking(c) == [Connect(c)] + ([NewTunnel(c, WEB)] + rest);
  }

  lemma LateClaims(s: State, c: Owner)
    requires s == State(map[], map[], map[c := Fresh.(reader := Detaching("web", Claim(WEB)))])
    ensures var rest := [Read(c, true), Read(c, true), Read(c, true), SignalClose(c)];
            && Runs(s, rest)
            && After(s, rest) == Lone(c, Fresh.(closed := true, reader := Starting(WEB)))
  {
    var s1 := Apply(s, Read(c, true));
    assert s1 == State(map[], map[], map[c := Fresh.(reader := ClaimingName(WEB))]);
    var s2 := Apply(s1, Read(c, true));
    assert s2 == State(map["web" := c], map[], map[c := Fresh.(reader := ClaimingPort(WEB))]);
    var s3 := Apply(s2, Read(c, true));
    RunsFirst(s3, SignalClose(c), []);
    RunsFirst(s2, Read(c, true), [SignalClose(c)]);
    RunsFirst(s1, Read(c, true), [Read(c, true)] + [SignalClose(c)]);
    RunsFirst(s, Read(c, true), [Read(c, true)] + ([Read(c, true)] + [SignalClose(c)]));
    assert [Read(c, true), Read(c, true), Read(c, true), SignalClose(c)]
        == [Read(c, true)] + ([Read(c, true)] + ([Read(c, true)] + [SignalClose(c)]));
    assert Apply(s3, SignalClose(c)).ctls == map[c := Fresh.(closed := true, reader := Starting(WEB))];
  }

  lemma LateMiddle(s: State, c: Owner)
    requires s == Lone(c, Fresh.(closed := true, reader := Starting(WEB)))
    ensures Runs(s, Outliving(c))
    ensures After(s, Outliving(c)) == Lone(c, Ctl(map["web" := WEB.slot], true, Idle, Closing, 0, false))
  {
    var s1 := Apply(s, BeginCleanup(c, []));
    assert s1 == Lone(c, Ctl(map[], true, Starting(WEB), Draining([], false), 0, false));
    var s2 := Apply(s1, Clean(c));
    assert s2 == Lone(c, Ctl(map[], true, Starting(WEB), Closing, 0, false));
    LateInserts(s2, c);
    var rest := [Read(c, true), Read(c, true)];
    RunsFirst(s1, Clean(c), rest);
    RunsFirst(s, BeginCleanup(c, []), [Clean(c)] + rest);
    assert Outliving(c) == [BeginCleanup(c, [])] + ([Clean(c)] + rest);
  }

  lemma LateInserts(s: State, c: Owner)
    requires s == Lone(c, Ctl(map[], true, Starting(WEB), Closing, 0, false))
    ensures var rest := [Read(c, true), Read(c, true)];
            Runs(s, rest) && After(s, rest) == Lone(c, Ctl(map["web" := WEB.slot], true, Idle, Closing, 0, false))
  {
    var s1 := Apply(s, Read(c, true));
    assert s1 == Lone(c, Ctl(map[], true, Inserting(WEB), Closing, 0, false));
    RunsFirst(s1, Read(c, true), []);
    RunsFirst(s, Read(c, true), [Read(c, true)]);
    assert [Read(c, true), Read(c, true)] == [Read(c, true)] + [Read(c, true)];
    assert Apply(s1, Read(c, true)) == Lone(c, Ctl(map["web" := WEB.slot], true, Idle, Closing, 0, false));
  }

  lemma LateEnd(s: State, c: Owner)
    requires s == Lone(c, Ctl(map["web" := WEB.slot], true, Idle, Closing, 0, false))
    ensures Runs(s, Ending(c))
    ensures var s' := After(s, Ending(c));
            LeftBehind(s', c) && s'.registry == s.registry && s'.ports == s.ports
  {
    var s1 := Apply(s, EndReader(c));
    assert s1 == Lone(c, Ctl(map["web" := WEB.slot], true, Ended, Closing, 0, false));
    var s2 := Apply(s1, Wait(c));
    assert s2 == Lone(c, Ctl(map["web" := WEB.slot], true, Ended, Closing, 1, false));
    var s3 := Apply(s2, MarkFinished(c));
    assert s3 == Lone(c, Ctl(map["web" := WEB.slot], true, Ended, Finished, 1, true));
    LateDrop(s3, c);
    var rest := [StopWaiting(c), Drop(c, [("web", WEB.slot)])];
    RunsFirst(s2, MarkFinished(c), rest);
    RunsFirst(s1, Wait(c), [MarkFinished(c)] + rest);
    RunsFirst(s, EndReader(c), [Wait(c)] + ([MarkFinished(c)] + rest));
    assert Ending(c) == [EndReader(c)] + ([Wait(c)] + ([MarkFinished(c)] + rest));
  }

  lemma LateDrop(s: State, c: Owner)
    requires s == Lone(c, Ctl(map["web" := WEB.slot], true, Ended, Finished, 1, true))
    ensures var rest := [StopWaiting(c), Drop(c, [("web", WEB.slot)])];
            Runs(s, rest) && LeftBehind(After(s, rest), c) && After(s, rest).registry == s.registry && After(s, rest).ports == s.ports
  {
    var order := [("web", WEB.slot)];
    var s1 := Apply(s, StopWaiting(c));
    assert s1 == Lone(c, Ctl(map["web" := WEB.slot], true, Ended, Finished, 0, true));
    assert Lists(order, s1.ctls[c].tunnels) by {
      assert order[0] in order;
    }
    RunsFirst(s1, Drop(c, order), []);
    RunsFirst(s, StopWaiting(c), [Drop(c, order)]);
    assert [StopWaiting(c), Drop(c, order)] == [StopWaiting(c)] + [Drop(c, order)];
    assert "web" in Apply(s1, Drop(c, order)).ctls[c].tunnels;
  }
}
