/** Names and ports of every control under every interleaving of registrations, closes and
    shutdowns. The proofs go through a ledger: what each control holds, wherever in its
    program it holds it, against the two global tables. */
module LeaseSafety {
  import opened Wrappers
  import opened LeaseTables
  import opened LeaseProtocol

  /** What a control holds: each name with the port that still goes with it. */
  type Holding = map<Name, Option<Slot>>

  datatype Ledger = Ledger(registry: Registry, ports: Ports, held: map<Owner, Holding>)

  ghost predicate HeldIsRegistered(l: Ledger) {
    forall c <- l.held :: forall n <- l.held[c] :: n in l.registry && l.registry[n] == c
  }

  ghost predicate RegisteredIsHeld(l: Ledger) {
    forall n <- l.registry :: l.registry[n] in l.held && n in l.held[l.registry[n]]
  }

  ghost predicate HeldPortIsNamed(l: Ledger) {
    forall c <- l.held :: forall n <- l.held[c] :: l.held[c][n].Some? ==>
      l.held[c][n].value in l.ports && l.ports[l.held[c][n].value] == n
  }

  ghost predicate NamedPortIsHeld(l: Ledger) {
    forall slot <- l.ports ::
      var n := l.ports[slot];
      n in l.registry && l.registry[n] in l.held && n in l.held[l.registry[n]]
      && l.held[l.registry[n]][n] == Some(slot)
  }

  /** Each registered name is held by its owner alone; each port is held with its name. */
  ghost predicate Consistent(l: Ledger) {
    HeldIsRegistered(l) && RegisteredIsHeld(l) && HeldPortIsNamed(l) && NamedPortIsHeld(l)
  }

  // ---------- the four ways a ledger changes ----------

  lemma TakeName(l: Ledger, c: Owner, n: Name)
    requires Consistent(l) && c in l.held && n !in l.registry
    ensures Consistent(Ledger(l.registry[n := c], l.ports, l.held[c := l.held[c][n := None]]))
  {
    var after := Ledger(l.registry[n := c], l.ports, l.held[c := l.held[c][n := None]]);
    assert HeldIsRegistered(after) by { hide HeldPortIsNamed, NamedPortIsHeld; }
    assert RegisteredIsHeld(after) by { hide HeldPortIsNamed, NamedPortIsHeld; }
    assert HeldPortIsNamed(after) by { hide RegisteredIsHeld, NamedPortIsHeld; }
    assert NamedPortIsHeld(after) by { hide HeldPortIsNamed; }
  }

  lemma TakePort(l: Ledger, c: Owner, n: Name, slot: Slot)
    requires Consistent(l) && c in l.held && n in l.held[c] && l.held[c][n].None? && slot !in l.ports
    ensures Consistent(Ledger(l.registry, l.ports[slot := n], l.held[c := l.held[c][n := Some(slot)]]))
  {
    hide HeldIsRegistered, RegisteredIsHeld, HeldPortIsNamed, NamedPortIsHeld;
    NamesStay(l, l.ports[slot := n], c, n, Some(slot));
    TakenPortIsNamed(l, c, n, slot);
  }

  /** What becomes of a held name's port does not touch the names. */
  lemma NamesStay(l: Ledger, ports: Ports, c: Owner, n: Name, slot: Option<Slot>)
    requires HeldIsRegistered(l) && RegisteredIsHeld(l) && c in l.held && n in l.held[c]
    ensures var after := Ledger(l.registry, ports, l.held[c := l.held[c][n := slot]]);
            HeldIsRegistered(after) && RegisteredIsHeld(after)
  {
  }

  lemma TakenPortIsNamed(l: Ledger, c: Owner, n: Name, slot: Slot)
    requires Consistent(l) && c in l.held && n in l.held[c] && l.held[c][n].None? && slot !in l.ports
    ensures var after := Ledger(l.registry, l.ports[slot := n], l.held[c := l.held[c][n := Some(slot)]]);
            HeldPortIsNamed(after) && NamedPortIsHeld(after)
  {
    hide RegisteredIsHeld;
  }

  /** Releasing the port of a held name frees exactly that port. */
  lemma GivePort(l: Ledger, c: Owner, n: Name)
    requires Consistent(l) && c in l.held && n in l.held[c]
    ensures WithoutSlot(l.ports, l.held[c][n], n) == l.ports - SlotSet(l.held[c][n])
    ensures Consistent(Ledger(l.registry, l.ports - SlotSet(l.held[c][n]), l.held[c := l.held[c][n := None]]))
  {
    hide HeldIsRegistered, RegisteredIsHeld, NamedPortIsHeld;
    FreesItsOwnSlot(l, c, n);
    NamesStay(l, l.ports - SlotSet(l.held[c][n]), c, n, None);
    GivenPortIsNamed(l, c, n);
    GivenPortIsHeld(l, c, n);
  }

  lemma FreesItsOwnSlot(l: Ledger, c: Owner, n: Name)
    requires HeldPortIsNamed(l) && c in l.held && n in l.held[c]
    ensures WithoutSlot(l.ports, l.held[c][n], n) == l.ports - SlotSet(l.held[c][n])
  {
  }

  lemma GivenPortIsNamed(l: Ledger, c: Owner, n: Name)
    requires HeldPortIsNamed(l) && HeldIsRegistered(l) && c in l.held && n in l.held[c]
    ensures HeldPortIsNamed(Ledger(l.registry, l.ports - SlotSet(l.held[c][n]), l.held[c := l.held[c][n := None]]))
  {
    var after := Ledger(l.registry, l.ports - SlotSet(l.held[c][n]), l.held[c := l.held[c][n := None]]);
    forall d <- after.held, m <- after.held[d] | after.held[d][m].Some?
      ensures after.held[d][m].value in after.ports && after.ports[after.held[d][m].value] == m
    {
      assert d in l.held && m in l.held[d] && l.held[d][m] == after.held[d][m];
      assert m == n ==> d == c;
    }
  }

  lemma GivenPortIsHeld(l: Ledger, c: Owner, n: Name)
    requires NamedPortIsHeld(l) && HeldIsRegistered(l) && c in l.held && n in l.held[c]
    ensures NamedPortIsHeld(Ledger(l.registry, l.ports - SlotSet(l.held[c][n]), l.held[c := l.held[c][n := None]]))
  {
    var after := Ledger(l.registry, l.ports - SlotSet(l.held[c][n]), l.held[c := l.held[c][n := None]]);
    forall slot <- after.ports
      ensures var m := after.ports[slot];
              m in l.registry && l.registry[m] in after.held && m in after.held[l.registry[m]]
              && after.held[l.registry[m]][m] == Some(slot)
    {
      assert slot in l.ports && l.ports[slot] == after.ports[slot];
    }
  }

  /** Releasing a held name whose port is gone frees exactly that name. */
  lemma GiveName(l: Ledger, c: Owner, n: Name)
    requires Consistent(l) && c in l.held && n in l.held[c] && l.held[c][n].None?
    ensures WithoutOwned(l.registry, n, c) == l.registry - {n}
    ensures Consistent(Ledger(l.registry - {n}, l.ports, l.held[c := l.held[c] - {n}]))
  {
    var after := Ledger(l.registry - {n}, l.ports, l.held[c := l.held[c] - {n}]);
    assert HeldIsRegistered(after) by { hide HeldPortIsNamed, NamedPortIsHeld; }
    assert RegisteredIsHeld(after) by { hide HeldPortIsNamed, NamedPortIsHeld; }
    assert HeldPortIsNamed(after) by { hide RegisteredIsHeld, NamedPortIsHeld; }
    assert NamedPortIsHeld(after) by { hide HeldPortIsNamed; }
  }

  // ---------- where a control holds its leases ----------

  function ReaderHolds(r: Reader): Holding {
    match r
    case FreeingPort(n, slot, _) => map[n := slot]
    case FreeingName(n, _) => map[n := None]
    case ClaimingPort(req) => map[req.name := None]
    case Starting(req) => map[req.name := req.slot]
    case Inserting(req) => map[req.name := req.slot]
    case UndoingPort(req) => map[req.name := req.slot]
    case UndoingName(req) => map[req.name := None]
    case _ => map[]
  }

  function TodoHolds(todo: seq<(Name, Option<Slot>)>): Holding {
    if todo == [] then map[] else TodoHolds(todo[1..])[todo[0].0 := todo[0].1]
  }

  function CleanupHolds(cl: Cleanup): Holding {
    if !Emptying(cl) then map[]
    else if cl.todo != [] && cl.portFreed then TodoHolds(cl.todo)[cl.todo[0].0 := None]
    else TodoHolds(cl.todo)
  }

  function Holds(ctl: Ctl): Holding {
    ctl.tunnels + ReaderHolds(ctl.reader) + CleanupHolds(ctl.cleanup)
  }

  /** No name is held in two places of one control. */
  ghost predicate WellFormed(ctl: Ctl) {
    && ctl.tunnels.Keys !! ReaderHolds(ctl.reader).Keys
    && ctl.tunnels.Keys !! CleanupHolds(ctl.cleanup).Keys
    && ReaderHolds(ctl.reader).Keys !! CleanupHolds(ctl.cleanup).Keys
    && (Emptying(ctl.cleanup) ==>
          forall i, j :: 0 <= i < j < |ctl.cleanup.todo| ==> ctl.cleanup.todo[i].0 != ctl.cleanup.todo[j].0)
    && (!ctl.cleanup.NotStarted? ==> ctl.closed)
    && (ctl.reader.ClaimingPort? || ctl.reader.UndoingPort? ==> ctl.reader.req.slot.Some?)
  }

  function Book(s: State): Ledger {
    Ledger(s.registry, s.ports, map c <- s.ctls :: Holds(s.ctls[c]))
  }

  ghost predicate Inv(s: State) {
    Consistent(Book(s)) && forall c <- s.ctls :: WellFormed(s.ctls[c])
  }

  // ---------- the drain list ----------

  ghost predicate Distinct(todo: seq<(Name, Option<Slot>)>) {
    forall i, j :: 0 <= i < j < |todo| ==> todo[i].0 != todo[j].0
  }

  lemma {:induction false} TodoLookup(todo: seq<(Name, Option<Slot>)>)
    requires Distinct(todo)
    ensures forall i :: 0 <= i < |todo| ==> todo[i].0 in TodoHolds(todo) && TodoHolds(todo)[todo[i].0] == todo[i].1
    ensures forall n <- TodoHolds(todo) :: exists i :: 0 <= i < |todo| && todo[i].0 == n
  {
    if todo != [] {
      var rest := todo[1..];
      TodoLookup(rest);
      forall i | 0 <= i < |todo|
        ensures todo[i].0 in TodoHolds(todo) && TodoHolds(todo)[todo[i].0] == todo[i].1
      {
        if i > 0 {
          assert rest[i - 1] == todo[i];
        }
      }
      forall n <- TodoHolds(todo)
        ensures exists i :: 0 <= i < |todo| && todo[i].0 == n
      {
        if n != todo[0].0 {
          var i :| 0 <= i < |rest| && rest[i].0 == n;
          assert todo[i + 1].0 == n;
        }
      }
    }
  }

  lemma HeadIsNotInTail(todo: seq<(Name, Option<Slot>)>)
    requires Distinct(todo) && todo != []
    ensures todo[0].0 !in TodoHolds(todo[1..])
  {
    TodoLookup(todo[1..]);
  }

  lemma DrainListHoldsTheTunnels(order: seq<(Name, Option<Slot>)>, tunnels: Tunnels)
    requires Lists(order, tunnels)
    ensures TodoHolds(order) == tunnels
  {
    TodoLookup(order);
    forall n <- tunnels
      ensures n in TodoHolds(order) && TodoHolds(order)[n] == tunnels[n]
    {
      assert (n, tunnels[n]) in order;
    }
  }

  // ---------- preservation ----------

  lemma BookOfPut(s: State, c: Owner, ctl: Ctl)
    ensures Book(Put(s, c, ctl)) == Ledger(s.registry, s.ports, Book(s).held[c := Holds(ctl)])
  {
    assert Book(Put(s, c, ctl)).held == Book(s).held[c := Holds(ctl)];
  }

  lemma ChangeKept(s: State, s': State, c: Owner, ctl: Ctl)
    requires Inv(s) && c in s.ctls && WellFormed(ctl)
    requires s' == Put(State(s'.registry, s'.ports, s.ctls), c, ctl)
    requires Consistent(Ledger(s'.registry, s'.ports, Book(s).held[c := Holds(ctl)]))
    ensures Inv(s')
  {
    var mid := State(s'.registry, s'.ports, s.ctls);
    BookOfPut(mid, c, ctl);
    assert Book(mid).held == Book(s).held;
  }

  /** A control moves what it holds from one place to another. */
  lemma MoveKept(s: State, c: Owner, ctl: Ctl)
    requires Inv(s) && c in s.ctls && WellFormed(ctl) && Holds(ctl) == Holds(s.ctls[c])
    ensures Inv(Put(s, c, ctl))
  {
    assert Book(s).held[c := Holds(ctl)] == Book(s).held;
    ChangeKept(s, Put(s, c, ctl), c, ctl);
  }

  lemma Facts(s: State, c: Owner)
    requires Inv(s) && c in s.ctls
    ensures WellFormed(s.ctls[c])
    ensures Book(s).held[c] == Holds(s.ctls[c])
    ensures Consistent(Book(s))
    ensures forall n <- Holds(s.ctls[c]) :: n in s.registry
  {
    assert Book(s).held[c] == Holds(s.ctls[c]);
  }

  lemma NewHolderIsConsistent(l: Ledger, c: Owner)
    requires Consistent(l) && c !in l.held
    ensures Consistent(Ledger(l.registry, l.ports, l.held[c := map[]]))
  {
  }

  lemma ConnectKept(s: State, c: Owner)
    requires Inv(s) && c !in s.ctls
    ensures Inv(Apply(s, Connect(c)))
  {
    hide Consistent;
    BookOfPut(s, c, Fresh);
    assert Holds(Fresh) == map[];
    NewHolderIsConsistent(Book(s), c);
  }

  lemma GivePortKept(s: State, c: Owner, n: Name, slot: Option<Slot>, ctl: Ctl)
    requires Inv(s) && c in s.ctls && WellFormed(ctl)
    requires n in Holds(s.ctls[c]) && Holds(s.ctls[c])[n] == slot && Holds(ctl) == Holds(s.ctls[c])[n := None]
    ensures Inv(Put(s.(ports := WithoutSlot(s.ports, slot, n)), c, ctl))
  {
    hide Inv;
    hide Consistent;
    Facts(s, c);
    GivePort(Book(s), c, n);
    ChangeKept(s, Put(s.(ports := WithoutSlot(s.ports, slot, n)), c, ctl), c, ctl);
  }

  lemma GiveNameKept(s: State, c: Owner, n: Name, ctl: Ctl)
    requires Inv(s) && c in s.ctls && WellFormed(ctl)
    requires n in Holds(s.ctls[c]) && Holds(s.ctls[c])[n].None? && Holds(ctl) == Holds(s.ctls[c]) - {n}
    ensures Inv(Put(s.(registry := WithoutOwned(s.registry, n, c)), c, ctl))
  {
    hide Inv;
    hide Consistent;
    Facts(s, c);
    GiveName(Book(s), c, n);
    ChangeKept(s, Put(s.(registry := WithoutOwned(s.registry, n, c)), c, ctl), c, ctl);
  }

  // How one control's holding changes when its reader or its cleanup moves on.

  ghost predicate ReaderShape(r: Reader) {
    r.ClaimingPort? || r.UndoingPort? ==> r.req.slot.Some?
  }

  /** The reader goes on with the same lease, or with none as before. */
  lemma ReaderKeeps(ctl: Ctl, r: Reader)
    requires WellFormed(ctl) && ReaderShape(r) && ReaderHolds(r) == ReaderHolds(ctl.reader)
    ensures WellFormed(ctl.(reader := r)) && Holds(ctl.(reader := r)) == Holds(ctl)
  {
  }

  /** The reader's lease on `n` changes its port. */
  lemma ReaderTurns(ctl: Ctl, n: Name, slot: Option<Slot>, r: Reader)
    requires WellFormed(ctl) && ReaderShape(r)
    requires n in ReaderHolds(ctl.reader) && ReaderHolds(r) == map[n := slot]
    ensures WellFormed(ctl.(reader := r)) && Holds(ctl.(reader := r)) == Holds(ctl)[n := slot]
    ensures n in Holds(ctl) && Holds(ctl)[n] == ReaderHolds(ctl.reader)[n]
  {
  }

  lemma ReaderLets(ctl: Ctl, n: Name, r: Reader)
    requires WellFormed(ctl) && ReaderShape(r)
    requires ReaderHolds(ctl.reader) == map[n := None] && ReaderHolds(r) == map[]
    ensures WellFormed(ctl.(reader := r)) && Holds(ctl.(reader := r)) == Holds(ctl) - {n}
    ensures n in Holds(ctl) && Holds(ctl)[n].None?
  {
  }

  lemma ReaderTakes(ctl: Ctl, n: Name, r: Reader)
    requires WellFormed(ctl) && ReaderShape(r) && n !in Holds(ctl)
    requires ReaderHolds(ctl.reader) == map[] && ReaderHolds(r) == map[n := None]
    ensures WellFormed(ctl.(reader := r)) && Holds(ctl.(reader := r)) == Holds(ctl)[n := None]
  {
  }

  lemma ReaderDetaches(ctl: Ctl, n: Name, k: Next)
    requires WellFormed(ctl) && n in ctl.tunnels && ReaderHolds(ctl.reader) == map[]
    ensures var ctl' := ctl.(tunnels := ctl.tunnels - {n}, reader := FreeingPort(n, ctl.tunnels[n], k));
            WellFormed(ctl') && Holds(ctl') == Holds(ctl)
  {
  }

  lemma ReaderInserts(ctl: Ctl, req: Req)
    requires WellFormed(ctl) && ctl.reader == Inserting(req)
    ensures req.name !in ctl.tunnels
    ensures var ctl' := ctl.(tunnels := ctl.tunnels[req.name := req.slot], reader := Idle);
            WellFormed(ctl') && Holds(ctl') == Holds(ctl)
  {
  }

  lemma CleanupFreesPort(ctl: Ctl, todo: seq<(Name, Option<Slot>)>)
    requires WellFormed(ctl) && Emptying(ctl.cleanup) && todo != [] && ctl.cleanup.todo == todo && !ctl.cleanup.portFreed
    ensures var ctl' := ctl.(cleanup := Emptied(ctl.cleanup, todo, true));
            WellFormed(ctl') && Holds(ctl') == Holds(ctl)[todo[0].0 := None]
    ensures todo[0].0 in Holds(ctl) && Holds(ctl)[todo[0].0] == todo[0].1
  {
  }

  lemma CleanupFreesName(ctl: Ctl, todo: seq<(Name, Option<Slot>)>)
    requires WellFormed(ctl) && Emptying(ctl.cleanup) && todo != [] && ctl.cleanup.todo == todo && ctl.cleanup.portFreed
    ensures var ctl' := ctl.(cleanup := Emptied(ctl.cleanup, todo[1..], false));
            WellFormed(ctl') && Holds(ctl') == Holds(ctl) - {todo[0].0}
    ensures todo[0].0 in Holds(ctl) && Holds(ctl)[todo[0].0].None?
  {
    HeadIsNotInTail(todo);
    assert CleanupHolds(Emptied(ctl.cleanup, todo[1..], false)) == CleanupHolds(ctl.cleanup) - {todo[0].0};
  }

  lemma ReleaseStepKept(s: State, c: Owner, ctl: Ctl)
    requires Inv(s) && c in s.ctls && s.ctls[c] == ctl
    requires ctl.reader.FreeingPort? || ctl.reader.FreeingName? || ctl.reader.UndoingPort? || ctl.reader.UndoingName?
    ensures Inv(ReadStep(s, c, ctl, true))
  {
    hide Inv, Consistent, WellFormed, Holds;
    Facts(s, c);
    match ctl.reader
    case FreeingPort(n, slot, k) =>
      ReaderTurns(ctl, n, None, FreeingName(n, k));
      GivePortKept(s, c, n, slot, ctl.(reader := FreeingName(n, k)));
    case FreeingName(n, k) =>
      ReaderLets(ctl, n, AfterReader(k));
      GiveNameKept(s, c, n, ctl.(reader := AfterReader(k)));
    case UndoingPort(req) =>
      ReaderTurns(ctl, req.name, None, UndoingName(req));
      GivePortKept(s, c, req.name, req.slot, ctl.(reader := UndoingName(req)));
    case UndoingName(req) =>
      ReaderLets(ctl, req.name, Idle);
      GiveNameKept(s, c, req.name, ctl.(reader := Idle));
  }

  lemma ClaimNameKept(s: State, c: Owner, ctl: Ctl, req: Req)
    requires Inv(s) && c in s.ctls && s.ctls[c] == ctl && ctl.reader == ClaimingName(req)
    ensures Inv(ReadStep(s, c, ctl, true))
  {
    hide Inv, Consistent, WellFormed, Holds;
    Facts(s, c);
    var s' := ReadStep(s, c, ctl, true);
    if req.name == "" || req.name in s.registry {
      ReaderKeeps(ctl, Idle);
      MoveKept(s, c, ctl.(reader := Idle));
    } else {
      ReaderTakes(ctl, req.name, s'.ctls[c].reader);
      TakeName(Book(s), c, req.name);
      ChangeKept(s, s', c, s'.ctls[c]);
    }
  }

  lemma ClaimPortKept(s: State, c: Owner, ctl: Ctl, req: Req)
    requires Inv(s) && c in s.ctls && s.ctls[c] == ctl && ctl.reader == ClaimingPort(req)
    ensures Inv(ReadStep(s, c, ctl, true))
  {
    hide Inv, Consistent, Holds;
    Facts(s, c);
    var s' := ReadStep(s, c, ctl, true);
    if req.slot.value.port == 0 || req.slot.value in s.ports {
      ReaderKeeps(ctl, UndoingName(req));
      MoveKept(s, c, ctl.(reader := UndoingName(req)));
    } else {
      ReaderTurns(ctl, req.name, req.slot, Starting(req));
      TakePort(Book(s), c, req.name, req.slot.value);
      ChangeKept(s, s', c, s'.ctls[c]);
    }
  }

  lemma DetachStepKept(s: State, c: Owner, ctl: Ctl, n: Name, k: Next)
    requires Inv(s) && c in s.ctls && s.ctls[c] == ctl && ctl.reader == Detaching(n, k)
    ensures Inv(ReadStep(s, c, ctl, true))
  {
    hide Inv, Consistent, WellFormed, Holds;
    Facts(s, c);
    if n in ctl.tunnels {
      ReaderDetaches(ctl, n, k);
    } else {
      ReaderKeeps(ctl, AfterReader(k));
    }
    MoveKept(s, c, ReadStep(s, c, ctl, true).ctls[c]);
  }

  lemma StartStepKept(s: State, c: Owner, ctl: Ctl, req: Req, starts: bool)
    requires Inv(s) && c in s.ctls && s.ctls[c] == ctl && ctl.reader == Starting(req)
    ensures Inv(ReadStep(s, c, ctl, starts))
  {
    hide Inv, Consistent, WellFormed, Holds;
    Facts(s, c);
    var r := ReadStep(s, c, ctl, starts).ctls[c].reader;
    ReaderKeeps(ctl, r);
    MoveKept(s, c, ctl.(reader := r));
  }

  lemma InsertStepKept(s: State, c: Owner, ctl: Ctl, req: Req)
    requires Inv(s) && c in s.ctls && s.ctls[c] == ctl && ctl.reader == Inserting(req)
    ensures Inv(ReadStep(s, c, ctl, true))
  {
    hide Inv, Consistent, WellFormed, Holds;
    Facts(s, c);
    ReaderInserts(ctl, req);
    MoveKept(s, c, ReadStep(s, c, ctl, true).ctls[c]);
  }

  lemma CleanStepKept(s: State, c: Owner, ctl: Ctl)
    requires Inv(s) && c in s.ctls && s.ctls[c] == ctl && Emptying(ctl.cleanup)
    ensures Inv(CleanStep(s, c, ctl))
  {
    hide Inv, Consistent, Holds;
    Facts(s, c);
    var cl := ctl.cleanup;
    if cl.todo == [] {
      var over := if cl.Draining? then Closing else Dropped;
      assert CleanupHolds(over) == CleanupHolds(cl);
      CleanupKeeps(ctl, over);
      MoveKept(s, c, ctl.(cleanup := over));
    } else if !cl.portFreed {
      CleanupFreesPort(ctl, cl.todo);
      GivePortKept(s, c, cl.todo[0].0, cl.todo[0].1, ctl.(cleanup := Emptied(cl, cl.todo, true)));
    } else {
      CleanupFreesName(ctl, cl.todo);
      GiveNameKept(s, c, cl.todo[0].0, ctl.(cleanup := Emptied(cl, cl.todo[1..], false)));
    }
  }

  lemma CleanupKeeps(ctl: Ctl, cl: Cleanup)
    requires CleanupHolds(cl) == CleanupHolds(ctl.cleanup)
    ensures Holds(ctl.(cleanup := cl)) == Holds(ctl)
  {
  }

  lemma DrainKeeps(ctl: Ctl, order: seq<(Name, Option<Slot>)>, cl: Cleanup)
    requires WellFormed(ctl) && ctl.closed && !Emptying(ctl.cleanup) && Lists(order, ctl.tunnels)
    requires cl == Draining(order, false) || cl == Dropping(order, false)
    ensures var ctl' := ctl.(tunnels := map[], cleanup := cl);
            WellFormed(ctl') && Holds(ctl') == Holds(ctl)
  {
    DrainListHoldsTheTunnels(order, ctl.tunnels);
  }

  /** Waiting, and the end of a shutdown, move no lease. */
  lemma WaitKeeps(ctl: Ctl, cl: Cleanup, waiting: nat, finished: bool)
    requires WellFormed(ctl) && !Emptying(cl) && !cl.NotStarted?
    requires cl == ctl.cleanup || (!Emptying(ctl.cleanup) && !ctl.cleanup.NotStarted?)
    ensures var ctl' := ctl.(cleanup := cl, waiting := waiting, finished := finished);
            WellFormed(ctl') && Holds(ctl') == Holds(ctl)
  {
  }

  lemma WaitersKeep(ctl: Ctl, waiting: nat)
    requires WellFormed(ctl)
    ensures WellFormed(ctl.(waiting := waiting)) && Holds(ctl.(waiting := waiting)) == Holds(ctl)
  {
  }

  lemma WaitStepKept(s: State, c: Owner, waiting: nat)
    requires Inv(s) && c in s.ctls
    ensures Inv(Put(s, c, s.ctls[c].(waiting := waiting)))
  {
    hide Inv, WellFormed, Holds;
    Facts(s, c);
    WaitersKeep(s.ctls[c], waiting);
    MoveKept(s, c, s.ctls[c].(waiting := waiting));
  }

  lemma FinishStepKept(s: State, c: Owner, step: Step)
    requires Inv(s) && Enabled(s, step) && (step == MarkFinished(c) || (step.Drop? && step.c == c))
    ensures Inv(Apply(s, step))
  {
    hide Inv, Holds;
    var ctl := s.ctls[c];
    Facts(s, c);
    if step.MarkFinished? {
      WaitKeeps(ctl, Finished, ctl.waiting, ctl.waiting > 0);
      MoveKept(s, c, ctl.(cleanup := Finished, finished := ctl.waiting > 0));
    } else if ctl.finished {
      WaitKeeps(ctl, Dropped, ctl.waiting, ctl.finished);
      MoveKept(s, c, ctl.(cleanup := Dropped));
    } else {
      DrainKeeps(ctl, step.order, Dropping(step.order, false));
      MoveKept(s, c, ctl.(tunnels := map[], cleanup := Dropping(step.order, false)));
    }
  }

  /** Every step of every control keeps the invariant. */
  lemma StepKept(s: State, step: Step)
    requires Inv(s) && Enabled(s, step)
    ensures Inv(Apply(s, step))
  {
    hide Inv, WellFormed, Holds;
    match step
    case Connect(c) => ConnectKept(s, c);
    case SignalClose(c) =>
      Facts(s, c);
      ClosedKeeps(s.ctls[c]);
      MoveKept(s, c, s.ctls[c].(closed := true));
    case Read(c, starts) =>
      var ctl := s.ctls[c];
      match ctl.reader {
        case ClaimingName(req) => ClaimNameKept(s, c, ctl, req);
        case ClaimingPort(req) => ClaimPortKept(s, c, ctl, req);
        case Detaching(n, k) => DetachStepKept(s, c, ctl, n, k);
        case Starting(req) => StartStepKept(s, c, ctl, req, starts);
        case Inserting(req) => InsertStepKept(s, c, ctl, req);
        case _ => ReleaseStepKept(s, c, ctl);
      }
    case BeginCleanup(c, order) =>
      Facts(s, c);
      DrainKeeps(s.ctls[c], order, Draining(order, false));
      MoveKept(s, c, s.ctls[c].(tunnels := map[], cleanup := Draining(order, false)));
    case Clean(c) => CleanStepKept(s, c, s.ctls[c]);
    case MarkFinished(c) => FinishStepKept(s, c, step);
    case Drop(c, order) => FinishStepKept(s, c, step);
    case Wait(c) => WaitStepKept(s, c, s.ctls[c].waiting + 1);
    case StopWaiting(c) => WaitStepKept(s, c, s.ctls[c].waiting - 1);
    case _ =>
      var c := step.c;
      Facts(s, c);
      var s' := Apply(s, step);
      ReaderKeeps(s.ctls[c], s'.ctls[c].reader);
      MoveKept(s, c, s'.ctls[c]);
      assert Put(s, c, s.ctls[c]) == s;
  }

  lemma ClosedKeeps(ctl: Ctl)
    requires WellFormed(ctl)
    ensures WellFormed(ctl.(closed := true)) && Holds(ctl.(closed := true)) == Holds(ctl)
  {
  }

  lemma {:induction false} RunKept(s: State, steps: seq<Step>)
    requires Inv(s) && Runs(s, steps)
    ensures Inv(After(s, steps))
    decreases |steps|
  {
    if steps != [] {
      StepKept(s, steps[0]);
      RunKept(Apply(s, steps[0]), steps[1..]);
    }
  }
}
