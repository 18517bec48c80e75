/** Lease safety: nobody frees what another holds, and every lease has one holder. */
module LeaseTheorems {
  import opened Wrappers
  import opened LeaseTables
  import opened LeaseProtocol
  import opened LeaseSafety

  function NamesOf(s: State, c: Owner): set<Name> {
    set n <- s.registry | s.registry[n] == c
  }

  /** The ports of the tunnels whose names `c` owns. */
  function SlotsOf(s: State, c: Owner): set<Slot> {
    set slot <- s.ports | s.ports[slot] in s.registry && s.registry[s.ports[slot]] == c
  }

  function Actor(step: Step): Owner {
    step.c
  }

  lemma NamesAreHeld(s: State, c: Owner)
    requires Inv(s) && c in s.ctls
    ensures NamesOf(s, c) == Holds(s.ctls[c]).Keys
    ensures forall n <- Holds(s.ctls[c]), slot :: Holds(s.ctls[c])[n] == Some(slot) ==>
              slot in s.ports && s.ports[slot] == n
    ensures forall slot <- SlotsOf(s, c) :: Holds(s.ctls[c])[s.ports[slot]] == Some(slot)
  {
    hide WellFormed, Holds;
    assert Book(s).held[c] == Holds(s.ctls[c]);
    assert forall n <- NamesOf(s, c) :: n in Holds(s.ctls[c]);
  }

  // ---------- nobody frees what another holds ----------

  ghost predicate OthersKeep(s: State, s': State, c: Owner) {
    forall d | d != c :: NamesOf(s', d) == NamesOf(s, d) && SlotsOf(s', d) == SlotsOf(s, d)
  }

  lemma SlotNamesAreRegistered(s: State)
    requires Inv(s)
    ensures forall slot <- s.ports :: s.ports[slot] in s.registry
  {
    hide WellFormed, Holds;
  }

  lemma SameTables(s: State, s': State, c: Owner)
    requires s'.registry == s.registry && s'.ports == s.ports
    ensures OthersKeep(s, s', c)
  {
  }

  lemma OwnNameTaken(s: State, s': State, c: Owner, n: Name)
    requires forall slot <- s.ports :: s.ports[slot] in s.registry
    requires n !in s.registry && s'.registry == s.registry[n := c] && s'.ports == s.ports
    ensures OthersKeep(s, s', c)
  {
    forall d | d != c
      ensures NamesOf(s', d) == NamesOf(s, d) && SlotsOf(s', d) == SlotsOf(s, d)
    {
    }
  }

  lemma OwnNameGiven(s: State, s': State, c: Owner, n: Name)
    requires s'.registry == WithoutOwned(s.registry, n, c) && s'.ports == s.ports
    ensures OthersKeep(s, s', c)
  {
    forall d | d != c
      ensures NamesOf(s', d) == NamesOf(s, d) && SlotsOf(s', d) == SlotsOf(s, d)
    {
    }
  }

  lemma OwnPortTaken(s: State, s': State, c: Owner, n: Name, slot: Slot)
    requires n in NamesOf(s, c) && slot !in s.ports
    requires s'.registry == s.registry && s'.ports == s.ports[slot := n]
    ensures OthersKeep(s, s', c)
  {
    forall d | d != c
      ensures NamesOf(s', d) == NamesOf(s, d) && SlotsOf(s', d) == SlotsOf(s, d)
    {
    }
  }

  lemma OwnPortGiven(s: State, s': State, c: Owner, n: Name, slot: Option<Slot>)
    requires n in NamesOf(s, c)
    requires s'.registry == s.registry && s'.ports == WithoutSlot(s.ports, slot, n)
    ensures OthersKeep(s, s', c)
  {
    forall d | d != c
      ensures NamesOf(s', d) == NamesOf(s, d) && SlotsOf(s', d) == SlotsOf(s, d)
    {
    }
  }

  lemma ReaderNamesAreOwn(s: State, c: Owner)
    requires Inv(s) && c in s.ctls
    ensures forall n <- ReaderHolds(s.ctls[c].reader) :: n in NamesOf(s, c)
    ensures forall n <- CleanupHolds(s.ctls[c].cleanup) :: n in NamesOf(s, c)
  {
    hide Inv;
    NamesAreHeld(s, c);
    var ctl := s.ctls[c];
    assert forall n <- ReaderHolds(ctl.reader) :: n in Holds(ctl);
    assert forall n <- CleanupHolds(ctl.cleanup) :: n in Holds(ctl);
  }

  lemma ReadKeepsOthers(s: State, c: Owner, ctl: Ctl, starts: bool)
    requires Inv(s) && c in s.ctls && s.ctls[c] == ctl
    ensures OthersKeep(s, ReadStep(s, c, ctl, starts), c)
  {
    hide Inv, NamesOf, SlotsOf;
    ReaderNamesAreOwn(s, c);
    SlotNamesAreRegistered(s);
    var s' := ReadStep(s, c, ctl, starts);
    match ctl.reader
    case FreeingPort(n, slot, _) => OwnPortGiven(s, s', c, n, slot);
    case FreeingName(n, _) => OwnNameGiven(s, s', c, n);
    case ClaimingName(req) =>
      if s'.registry == s.registry {
        SameTables(s, s', c);
      } else {
        OwnNameTaken(s, s', c, req.name);
      }
    case ClaimingPort(req) =>
      if s'.ports == s.ports {
        SameTables(s, s', c);
      } else {
        OwnPortTaken(s, s', c, req.name, req.slot.value);
      }
    case UndoingPort(req) => OwnPortGiven(s, s', c, req.name, req.slot);
    case UndoingName(req) => OwnNameGiven(s, s', c, req.name);
    case _ => SameTables(s, s', c);
  }

  lemma CleanKeepsOthers(s: State, c: Owner, ctl: Ctl)
    requires Inv(s) && c in s.ctls && s.ctls[c] == ctl && Emptying(ctl.cleanup)
    ensures OthersKeep(s, CleanStep(s, c, ctl), c)
  {
    hide Inv, NamesOf, SlotsOf;
    ReaderNamesAreOwn(s, c);
    var s' := CleanStep(s, c, ctl);
    var cl := ctl.cleanup;
    if cl.todo == [] {
      SameTables(s, s', c);
    } else if cl.portFreed {
      OwnNameGiven(s, s', c, cl.todo[0].0);
    } else {
      assert cl.todo[0].0 in CleanupHolds(cl);
      OwnPortGiven(s, s', c, cl.todo[0].0, cl.todo[0].1);
    }
  }

  lemma StepKeepsOthers(s: State, step: Step)
    requires Inv(s) && Enabled(s, step)
    ensures OthersKeep(s, Apply(s, step), Actor(step))
  {
    hide Inv;
    match step
    case Read(c, starts) => ReadKeepsOthers(s, c, s.ctls[c], starts);
    case Clean(c) => CleanKeepsOthers(s, c, s.ctls[c]);
    case _ => SameTables(s, Apply(s, step), Actor(step));
  }

  /** Whatever the interleaving, a step of one control leaves every name and every port of
      every other control, and of every other generation, where it was. */
  lemma ForeignLeasesKept(steps: seq<Step>, step: Step, d: Owner)
    requires Runs(Start, steps) && Enabled(After(Start, steps), step) && d != Actor(step)
    ensures var s := After(Start, steps);
            var s' := Apply(s, step);
            NamesOf(s', d) == NamesOf(s, d) && SlotsOf(s', d) == SlotsOf(s, d)
  {
    hide Inv;
    StartKept();
    RunKept(Start, steps);
    StepKeepsOthers(After(Start, steps), step);
  }

  lemma StartKept()
    ensures Inv(Start)
  {
  }

  // ---------- exactly one holder ----------

  predicate InTunnels(ctl: Ctl, n: Name) {
    n in ctl.tunnels
  }

  predicate InReader(ctl: Ctl, n: Name) {
    n in ReaderHolds(ctl.reader)
  }

  predicate InDrain(ctl: Ctl, n: Name) {
    n in CleanupHolds(ctl.cleanup)
  }

  predicate OneOf(a: bool, b: bool, c: bool) {
    (a || b || c) && !(a && b) && !(a && c) && !(b && c)
  }

  /** A registered name is held by its owner in exactly one place - a managed tunnel, a
      registration or release in flight, or the drain list - and by no other control; a claimed
      port is held together with the name it is entered under. */
  lemma ExactlyOneHolder(steps: seq<Step>)
    requires Runs(Start, steps)
    ensures var s := After(Start, steps);
            && (forall n <- s.registry ::
                  var c := s.registry[n];
                  c in s.ctls && OneOf(InTunnels(s.ctls[c], n), InReader(s.ctls[c], n), InDrain(s.ctls[c], n)))
            && (forall d <- s.ctls, n :: n in Holds(s.ctls[d]) ==> n in s.registry && s.registry[n] == d)
            && (forall slot <- s.ports ::
                  var n := s.ports[slot];
                  n in s.registry && s.registry[n] in s.ctls
                  && n in Holds(s.ctls[s.registry[n]]) && Holds(s.ctls[s.registry[n]])[n] == Some(slot))
  {
    hide Inv;
    StartKept();
    RunKept(Start, steps);
    var s := After(Start, steps);
    OwnersExist(s);
    forall n <- s.registry
      ensures var c := s.registry[n];
              c in s.ctls && OneOf(InTunnels(s.ctls[c], n), InReader(s.ctls[c], n), InDrain(s.ctls[c], n))
    {
      var c := s.registry[n];
      NamesAreHeld(s, c);
      assert n in NamesOf(s, c);
      Facts(s, c);
    }
    forall d <- s.ctls, n | n in Holds(s.ctls[d])
      ensures n in s.registry && s.registry[n] == d
    {
      NamesAreHeld(s, d);
      assert n in NamesOf(s, d);
    }
    forall slot <- s.ports
      ensures var n := s.ports[slot];
              n in s.registry && s.registry[n] in s.ctls
              && n in Holds(s.ctls[s.registry[n]]) && Holds(s.ctls[s.registry[n]])[n] == Some(slot)
    {
      var c := s.registry[s.ports[slot]];
      NamesAreHeld(s, c);
      assert slot in SlotsOf(s, c);
    }
  }

  lemma OwnersExist(s: State)
    requires Inv(s)
    ensures forall n <- s.registry :: s.registry[n] in s.ctls
    ensures forall slot <- s.ports :: s.ports[slot] in s.registry
  {
    hide WellFormed, Holds;
  }

  /** The lease a reader or a drain is about to release. */
  function Releasing(ctl: Ctl): Option<(Name, Option<Slot>)> {
    match ctl.reader
    case FreeingPort(n, slot, _) => Some((n, slot))
    case FreeingName(n, _) => Some((n, None))
    case UndoingPort(req) => Some((req.name, req.slot))
    case UndoingName(req) => Some((req.name, None))
    case _ => None
  }

  /** The table has the port under that name, and the name is the control's. */
  predicate Owns(s: State, c: Owner, n: Name, slot: Option<Slot>) {
    n in NamesOf(s, c) && (slot.Some? ==> slot.value in s.ports && s.ports[slot.value] == n)
  }

  /** Every release frees something of its own: the name tests in `release` and the owner
      tests in `remove_if_owner` never refuse. */
  lemma ReleasesHitTheirOwn(steps: seq<Step>, c: Owner)
    requires Runs(Start, steps)
    ensures var s := After(Start, steps);
            c in s.ctls && Releasing(s.ctls[c]).Some? ==>
              Owns(s, c, Releasing(s.ctls[c]).value.0, Releasing(s.ctls[c]).value.1)
    ensures var s := After(Start, steps);
            c in s.ctls && Emptying(s.ctls[c].cleanup) && s.ctls[c].cleanup.todo != [] ==>
              var (n, slot) := s.ctls[c].cleanup.todo[0];
              Owns(s, c, n, if s.ctls[c].cleanup.portFreed then None else slot)
  {
    hide Inv, NamesOf;
    StartKept();
    RunKept(Start, steps);
    var s := After(Start, steps);
    if c in s.ctls {
      NamesAreHeld(s, c);
      Facts(s, c);
      HoldsByPlace(s.ctls[c]);
      hide Holds, WellFormed;
      ReaderNamesAreOwn(s, c);
      if Emptying(s.ctls[c].cleanup) && s.ctls[c].cleanup.todo != [] {
        DrainOwnsItsHead(s, c, s.ctls[c].cleanup.todo, s.ctls[c].cleanup.portFreed);
      }
    }
  }

  lemma HoldsByPlace(ctl: Ctl)
    requires WellFormed(ctl)
    ensures forall n <- ReaderHolds(ctl.reader) :: n in Holds(ctl) && Holds(ctl)[n] == ReaderHolds(ctl.reader)[n]
    ensures forall n <- CleanupHolds(ctl.cleanup) :: n in Holds(ctl) && Holds(ctl)[n] == CleanupHolds(ctl.cleanup)[n]
  {
  }

  lemma DrainOwnsItsHead(s: State, c: Owner, todo: seq<(Name, Option<Slot>)>, portFreed: bool)
    requires Inv(s) && c in s.ctls && todo != []
    requires s.ctls[c].cleanup == Draining(todo, portFreed) || s.ctls[c].cleanup == Dropping(todo, portFreed)
    ensures Owns(s, c, todo[0].0, if portFreed then None else todo[0].1)
  {
    hide Inv;
    NamesAreHeld(s, c);
    Facts(s, c);
    HoldsByPlace(s.ctls[c]);
    assert todo[0].0 in CleanupHolds(s.ctls[c].cleanup);
  }

  /** insert_tunnel never finds the name already present in the session. */
  lemma AlreadyPresentIsUnreachable(steps: seq<Step>, c: Owner)
    requires Runs(Start, steps)
    ensures var s := After(Start, steps);
            c in s.ctls && s.ctls[c].reader.Inserting? ==> s.ctls[c].reader.req.name !in s.ctls[c].tunnels
  {
    hide Inv;
    StartKept();
    RunKept(Start, steps);
    var s := After(Start, steps);
    if c in s.ctls && s.ctls[c].reader.Inserting? {
      Facts(s, c);
      ReaderInserts(s.ctls[c], s.ctls[c].reader.req);
    }
  }
}
