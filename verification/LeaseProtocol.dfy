/** Every control's reader registers and closes tunnels while other tasks may shut the control
    down, wait for that, and at last drop it (register.rs, control/session/mod.rs). One step is
    one section under the lock of one table or of one control's tunnels, or the outcome of
    binding a port. A control may be signalled closed at any moment. */
module LeaseProtocol {
  import opened Wrappers
  import opened LeaseTables

  /** A NewTunnel request; `slot` is the port it asks for, if its kind needs one. */
  datatype Req = Req(name: Name, slot: Option<Slot>)

  datatype Next = Claim(req: Req) | Rest

  /** The one task that reads a control's messages, between two messages or inside one. */
  datatype Reader =
    | Idle
    | Ended
    | Detaching(name: Name, next: Next)
    | FreeingPort(name: Name, slot: Option<Slot>, next: Next)
    | FreeingName(name: Name, next: Next)
    | ClaimingName(req: Req)
    | ClaimingPort(req: Req)
    | Starting(req: Req)
    | Inserting(req: Req)
    | UndoingPort(req: Req)
    | UndoingName(req: Req)

  /** shutdown after it has won the `cleaning` flag, and Drop after the last user of the control
      is gone. The tunnels' lock is held while Draining and Dropping; the head of `todo` has its
      port released before its name. Closing is the shutdown of the writer and the background
      tasks, up to mark_finished. */
  datatype Cleanup =
    | NotStarted
    | Draining(todo: seq<(Name, Option<Slot>)>, portFreed: bool)
    | Closing
    | Finished
    | Dropping(todo: seq<(Name, Option<Slot>)>, portFreed: bool)
    | Dropped

  /** `waiting` counts the other calls of shutdown that are inside wait_finished. The channel
      `finished` has no other receivers, and a value sent to no receiver is not stored. When a
      control is dropped with `finished` stored, `tunnels` is the record of what it still had. */
  datatype Ctl = Ctl(tunnels: Tunnels, closed: bool, reader: Reader, cleanup: Cleanup, waiting: nat, finished: bool)

  const Fresh := Ctl(map[], false, Idle, NotStarted, 0, false)

  datatype State = State(registry: Registry, ports: Ports, ctls: map<Owner, Ctl>)

  datatype Step =
    | Connect(c: Owner)
    | SignalClose(c: Owner)
    | NewTunnel(c: Owner, req: Req)
    | CloseTunnel(c: Owner, name: Name)
    | EndReader(c: Owner)
    | Read(c: Owner, starts: bool)
    | BeginCleanup(c: Owner, order: seq<(Name, Option<Slot>)>)
    | Clean(c: Owner)
    | MarkFinished(c: Owner)
    | Wait(c: Owner)
    | StopWaiting(c: Owner)
    | Drop(c: Owner, order: seq<(Name, Option<Slot>)>)

  const Start := State(map[], map[], map[])

  /** `order` lists the tunnels, each once, in some order. */
  ghost predicate Lists(order: seq<(Name, Option<Slot>)>, tunnels: Tunnels) {
    && (forall i :: 0 <= i < |order| ==> order[i].0 in tunnels && tunnels[order[i].0] == order[i].1)
    && (forall n <- tunnels :: (n, tunnels[n]) in order)
    && (forall i, j :: 0 <= i < j < |order| ==> order[i].0 != order[j].0)
  }

  /** The tunnels' lock is taken, by the drain or by Drop. */
  predicate Emptying(cl: Cleanup) {
    cl.Draining? || cl.Dropping?
  }

  /** Somebody still has the control. */
  predicate Alive(ctl: Ctl) {
    !ctl.cleanup.Dropping? && !ctl.cleanup.Dropped?
  }

  ghost predicate Enabled(s: State, step: Step) {
    match step
    case Connect(c) => c !in s.ctls
    case SignalClose(c) => c in s.ctls && Alive(s.ctls[c])
    case NewTunnel(c, _) => c in s.ctls && s.ctls[c].reader.Idle?
    case CloseTunnel(c, _) => c in s.ctls && s.ctls[c].reader.Idle?
    case EndReader(c) => c in s.ctls && s.ctls[c].reader.Idle?
    case Read(c, _) =>
      && c in s.ctls && !s.ctls[c].reader.Idle? && !s.ctls[c].reader.Ended?
      && (s.ctls[c].reader.Detaching? || s.ctls[c].reader.Inserting? ==> !Emptying(s.ctls[c].cleanup))
    case BeginCleanup(c, order) =>
      c in s.ctls && s.ctls[c].closed && s.ctls[c].cleanup.NotStarted? && Lists(order, s.ctls[c].tunnels)
    case Clean(c) => c in s.ctls && Emptying(s.ctls[c].cleanup)
    case MarkFinished(c) => c in s.ctls && s.ctls[c].cleanup.Closing?
    case Wait(c) => c in s.ctls && s.ctls[c].closed && !s.ctls[c].cleanup.NotStarted? && Alive(s.ctls[c])
    case StopWaiting(c) => c in s.ctls && s.ctls[c].waiting > 0
    case Drop(c, order) =>
      && c in s.ctls && s.ctls[c].cleanup.Finished? && s.ctls[c].reader.Ended? && s.ctls[c].waiting == 0
      && Lists(order, s.ctls[c].tunnels)
  }

  function Put(s: State, c: Owner, ctl: Ctl): State {
    s.(ctls := s.ctls[c := ctl])
  }

  function AfterReader(next: Next): Reader {
    match next
    case Claim(req) => ClaimingName(req)
    case Rest => Idle
  }

  ghost function Apply(s: State, step: Step): State
    requires Enabled(s, step)
  {
    match step
    case Connect(c) => Put(s, c, Fresh)
    case SignalClose(c) => Put(s, c, s.ctls[c].(closed := true))
    case NewTunnel(c, req) =>
      if s.ctls[c].closed || !ValidPort(req.slot) then s
      else Put(s, c, s.ctls[c].(reader := Detaching(req.name, Claim(req))))
    case CloseTunnel(c, name) => Put(s, c, s.ctls[c].(reader := Detaching(name, Rest)))
    case EndReader(c) => Put(s, c, s.ctls[c].(reader := Ended))
    case Read(c, starts) => ReadStep(s, c, s.ctls[c], starts)
    case BeginCleanup(c, order) =>
      Put(s, c, s.ctls[c].(tunnels := map[], cleanup := Draining(order, false)))
    case Clean(c) => CleanStep(s, c, s.ctls[c])
    case MarkFinished(c) =>
      Put(s, c, s.ctls[c].(cleanup := Finished, finished := s.ctls[c].waiting > 0))
    case Wait(c) => Put(s, c, s.ctls[c].(waiting := s.ctls[c].waiting + 1))
    case StopWaiting(c) => Put(s, c, s.ctls[c].(waiting := s.ctls[c].waiting - 1))
    case Drop(c, order) =>
      if s.ctls[c].finished then Put(s, c, s.ctls[c].(cleanup := Dropped))
      else Put(s, c, s.ctls[c].(tunnels := map[], cleanup := Dropping(order, false)))
  }

  /** The two tables, the control's tunnels and its reader after a step of the reader. */
  datatype Effect = Effect(registry: Registry, ports: Ports, tunnels: Tunnels, reader: Reader)

  function ReadEffect(names: Registry, ports: Ports, c: Owner, tunnels: Tunnels, reader: Reader, starts: bool): Effect {
    match reader
    case Detaching(n, k) =>
      if n in tunnels then Effect(names, ports, tunnels - {n}, FreeingPort(n, tunnels[n], k))
      else Effect(names, ports, tunnels, AfterReader(k))
    case FreeingPort(n, slot, k) => Effect(names, WithoutSlot(ports, slot, n), tunnels, FreeingName(n, k))
    case FreeingName(n, k) => Effect(WithoutOwned(names, n, c), ports, tunnels, AfterReader(k))
    case ClaimingName(req) =>
      if req.name == "" || req.name in names then Effect(names, ports, tunnels, Idle)
      else Effect(names[req.name := c], ports, tunnels, if req.slot.Some? then ClaimingPort(req) else Starting(req))
    case ClaimingPort(req) =>
      if req.slot.None? || req.slot.value.port == 0 || req.slot.value in ports
      then Effect(names, ports, tunnels, UndoingName(req))
      else Effect(names, ports[req.slot.value := req.name], tunnels, Starting(req))
    case Starting(req) => Effect(names, ports, tunnels, if starts then Inserting(req) else Undo(req))
    case Inserting(req) =>
      if req.name in tunnels then Effect(names, ports, tunnels, Undo(req))
      else Effect(names, ports, tunnels[req.name := req.slot], Idle)
    case UndoingPort(req) => Effect(names, WithoutSlot(ports, req.slot, req.name), tunnels, UndoingName(req))
    case UndoingName(req) => Effect(WithoutOwned(names, req.name, c), ports, tunnels, Idle)
    case _ => Effect(names, ports, tunnels, reader)
  }

  function Undo(req: Req): Reader {
    if req.slot.Some? then UndoingPort(req) else UndoingName(req)
  }

  function ReadStep(s: State, c: Owner, ctl: Ctl, starts: bool): State {
    var e := ReadEffect(s.registry, s.ports, c, ctl.tunnels, ctl.reader, starts);
    Put(State(e.registry, e.ports, s.ctls), c, ctl.(tunnels := e.tunnels, reader := e.reader))
  }

  /** The same drain with what is left of it. */
  function Emptied(cl: Cleanup, todo: seq<(Name, Option<Slot>)>, portFreed: bool): Cleanup
    requires Emptying(cl)
  {
    if cl.Draining? then Draining(todo, portFreed) else Dropping(todo, portFreed)
  }

  function CleanStep(s: State, c: Owner, ctl: Ctl): State
    requires Emptying(ctl.cleanup)
  {
    var cl := ctl.cleanup;
    if cl.todo == [] then Put(s, c, ctl.(cleanup := if cl.Draining? then Closing else Dropped))
    else if !cl.portFreed
    then Put(s.(ports := WithoutSlot(s.ports, cl.todo[0].1, cl.todo[0].0)), c, ctl.(cleanup := Emptied(cl, cl.todo, true)))
    else Put(s.(registry := WithoutOwned(s.registry, cl.todo[0].0, c)), c, ctl.(cleanup := Emptied(cl, cl.todo[1..], false)))
  }

  ghost predicate Runs(s: State, steps: seq<Step>)
    decreases |steps|
  {
    steps == [] || (Enabled(s, steps[0]) && Runs(Apply(s, steps[0]), steps[1..]))
  }

  ghost function After(s: State, steps: seq<Step>): State
    requires Runs(s, steps)
    decreases |steps|
  {
    if steps == [] then s else After(Apply(s, steps[0]), steps[1..])
  }
}
