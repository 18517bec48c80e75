/** The HTTP gateway inside the lease protocol (tunnel/http.rs, register.rs, control/session/mod.rs).
    The gateway removes routes by tunnel name alone; the name lease is what makes them a control's
    own. A tunnel's routes are registered while its control holds the name, and every section that
    releases a name comes after the routes of its tunnel were removed. */
module LeaseRoutes {
  import opened Wrappers
  import opened LeaseTables
  import opened LeaseProtocol
  import opened LeaseSafety
  import opened LeaseTheorems
  import Gw = HttpGw
  import Http = HttpTunnel

  type Routes = set<(string, Gw.Route)>

  /** An HttpTunnel of a control: registering its routes, refused one of them, or registered. It is
      left out once its routes were removed for good. */
  datatype Phase = Building | Failing | Open

  datatype Joint = Joint(s: State, routes: Routes, phases: map<(Owner, Name), Phase>)

  datatype JointStep =
    | Lease(step: Step)
    | BeginRoutes(c: Owner)
    | PutRoute(c: Owner, key: string, route: Gw.Route)
    | AbortRoutes(c: Owner)
    | FinishRoutes(c: Owner)
    | CloseRoutes(c: Owner, name: Name)

  const Begin := Joint(Start, {}, map[])

  function ActorOf(step: JointStep): Owner {
    match step
    case Lease(l) => Actor(l)
    case BeginRoutes(c) => c
    case PutRoute(c, _, _) => c
    case AbortRoutes(c) => c
    case FinishRoutes(c) => c
    case CloseRoutes(c, _) => c
  }

  /** HttpTunnel::register runs with this control's reader. */
  predicate Registers(s: State, c: Owner) {
    c in s.ctls && s.ctls[c].reader.Starting?
  }

  function NameOf(s: State, c: Owner): Name
    requires Registers(s, c)
  {
    s.ctls[c].reader.req.name
  }

  predicate InPhase(j: Joint, c: Owner, n: Name, phase: Phase) {
    (c, n) in j.phases && j.phases[(c, n)] == phase
  }

  predicate NoRoutes(j: Joint, c: Owner, n: Name) {
    (c, n) !in j.phases
  }

  ghost predicate Listed(todo: seq<(Name, Option<Slot>)>, n: Name) {
    exists i :: 0 <= i < |todo| && todo[i].0 == n
  }

  /** The tunnel was taken out of the manager, or never got into it, and its name is not released
      yet; or it goes away with its control. */
  ghost predicate TakenOut(ctl: Ctl, n: Name) {
    || (ctl.reader.FreeingPort? && ctl.reader.name == n)
    || (ctl.reader.FreeingName? && ctl.reader.name == n)
    || (ctl.reader.UndoingPort? && ctl.reader.req.name == n)
    || (ctl.reader.UndoingName? && ctl.reader.req.name == n)
    || (Emptying(ctl.cleanup) && Listed(ctl.cleanup.todo, n))
    || (ctl.cleanup.Dropped? && n in ctl.tunnels)
  }

  /** The routes of the tunnels were removed before any of their leases is released, and register
      has returned before its reader goes on. */
  ghost predicate InOrder(j: Joint, step: Step) {
    match step
    case Read(c, starts) =>
      c in j.s.ctls &&
      (match j.s.ctls[c].reader
       case Starting(req) => NoRoutes(j, c, req.name) || (starts && InPhase(j, c, req.name, Open))
       case FreeingPort(n, _, _) => NoRoutes(j, c, n)
       case FreeingName(n, _) => NoRoutes(j, c, n)
       case UndoingPort(req) => NoRoutes(j, c, req.name)
       case UndoingName(req) => NoRoutes(j, c, req.name)
       case _ => true)
    case Clean(c) =>
      c in j.s.ctls && Emptying(j.s.ctls[c].cleanup) && forall n :: Listed(j.s.ctls[c].cleanup.todo, n) ==> NoRoutes(j, c, n)
    case _ => true
  }

  ghost predicate CanStep(j: Joint, step: JointStep) {
    match step
    case Lease(l) => Enabled(j.s, l) && InOrder(j, l)
    case BeginRoutes(c) => Registers(j.s, c)
    case PutRoute(c, _, route) =>
      && Registers(j.s, c) && InPhase(j, c, NameOf(j.s, c), Building)
      && route.tunnel == NameOf(j.s, c) && route.options.control == c.generation
    case AbortRoutes(c) => Registers(j.s, c) && InPhase(j, c, NameOf(j.s, c), Failing)
    case FinishRoutes(c) => Registers(j.s, c) && InPhase(j, c, NameOf(j.s, c), Building)
    case CloseRoutes(c, n) => c in j.s.ctls && InPhase(j, c, n, Open) && TakenOut(j.s.ctls[c], n)
  }

  ghost function Do(j: Joint, step: JointStep): Joint
    requires CanStep(j, step)
  {
    match step
    case Lease(l) => j.(s := Apply(j.s, l))
    case BeginRoutes(c) =>
      j.(routes := Gw.Without(j.routes, NameOf(j.s, c)), phases := j.phases[(c, NameOf(j.s, c)) := Building])
    case PutRoute(c, key, route) =>
      if Gw.Free(j.routes, key, route) then j.(routes := Gw.WithRoute(j.routes, key, route))
      else j.(phases := j.phases[(c, NameOf(j.s, c)) := Failing])
    case AbortRoutes(c) =>
      j.(routes := Gw.Without(j.routes, NameOf(j.s, c)), phases := j.phases - {(c, NameOf(j.s, c))})
    case FinishRoutes(c) => j.(phases := j.phases[(c, NameOf(j.s, c)) := Open])
    case CloseRoutes(c, n) => j.(routes := Gw.Without(j.routes, n), phases := j.phases - {(c, n)})
  }

  ghost predicate CanRun(j: Joint, steps: seq<JointStep>)
    decreases |steps|
  {
    steps == [] || (CanStep(j, steps[0]) && CanRun(Do(j, steps[0]), steps[1..]))
  }

  ghost function Outcome(j: Joint, steps: seq<JointStep>): Joint
    requires CanRun(j, steps)
    decreases |steps|
  {
    if steps == [] then j else Outcome(Do(j, steps[0]), steps[1..])
  }

  // ---------- the invariant ----------

  /** A control with an HttpTunnel has the name of it. */
  ghost predicate PhasesAreLeased(s: State, phases: map<(Owner, Name), Phase>) {
    forall k <- phases :: k.0 in s.ctls && k.1 in NamesOf(s, k.0)
  }

  /** A route belongs to an HttpTunnel of the control that has its name. */
  ghost predicate RoutesAreLeased(s: State, routes: Routes, phases: map<(Owner, Name), Phase>) {
    forall e <- routes ::
      var n := e.1.tunnel;
      n in s.registry && (s.registry[n], n) in phases && e.1.options.control == s.registry[n].generation
  }

  /** Registration is over outside of register. */
  ghost predicate OpenOutside(s: State, phases: map<(Owner, Name), Phase>) {
    forall k <- phases :: phases[k].Open? || (Registers(s, k.0) && NameOf(s, k.0) == k.1)
  }

  ghost predicate JointInv(j: Joint) {
    && Inv(j.s) && PhasesAreLeased(j.s, j.phases) && RoutesAreLeased(j.s, j.routes, j.phases)
    && OpenOutside(j.s, j.phases)
  }

  /** The name that a step of a control releases. */
  ghost function Released(s: State, step: Step): Option<Name>
    requires Enabled(s, step)
  {
    match step
    case Read(c, _) =>
      (match s.ctls[c].reader
       case FreeingName(n, _) => Some(n)
       case UndoingName(req) => Some(req.name)
       case _ => None)
    case Clean(c) =>
      var cl := s.ctls[c].cleanup;
      if cl.todo != [] && cl.portFreed then Some(cl.todo[0].0) else None
    case _ => None
  }

  lemma ReadReleases(s: State, c: Owner, starts: bool, n: Name)
    requires Enabled(s, Read(c, starts)) && n in NamesOf(s, c) && Released(s, Read(c, starts)) != Some(n)
    ensures n in NamesOf(Apply(s, Read(c, starts)), c)
  {
    match s.ctls[c].reader
    case FreeingPort(_, _, _) =>
    case FreeingName(_, _) =>
    case ClaimingName(_) =>
    case ClaimingPort(_) =>
    case UndoingPort(_) =>
    case UndoingName(_) =>
    case _ =>
  }

  /** A step takes no other name from its control. */
  lemma OthersStay(s: State, step: Step, n: Name)
    requires Enabled(s, step) && n in NamesOf(s, Actor(step)) && Released(s, step) != Some(n)
    ensures n in NamesOf(Apply(s, step), Actor(step))
  {
    match step
    case Read(c, starts) => ReadReleases(s, c, starts, n);
    case _ =>
  }

  /** What is released has no routes. */
  lemma ReleasedIsCleared(j: Joint, l: Step, n: Name)
    requires Enabled(j.s, l) && InOrder(j, l) && Released(j.s, l) == Some(n)
    ensures NoRoutes(j, Actor(l), n)
  {
    if l.Clean? {
      assert Listed(j.s.ctls[l.c].cleanup.todo, n);
    }
  }

  lemma LeaseKeepsControls(s: State, l: Step)
    requires Enabled(s, l)
    ensures s.ctls.Keys <= Apply(s, l).ctls.Keys
    ensures forall d <- s.ctls :: d != Actor(l) ==> Apply(s, l).ctls[d] == s.ctls[d]
  {
  }

  lemma PhasesStayLeased(j: Joint, l: Step)
    requires JointInv(j) && CanStep(j, Lease(l))
    ensures PhasesAreLeased(Apply(j.s, l), j.phases)
  {
    LeaseKeepsControls(j.s, l);
    StepKeepsOthers(j.s, l);
    var s' := Apply(j.s, l);
    hide Inv, Apply, Enabled, InOrder, NamesOf, SlotsOf, Released;
    forall k <- j.phases ensures k.0 in s'.ctls && k.1 in NamesOf(s', k.0) {
      if k.0 == Actor(l) {
        if Released(j.s, l) == Some(k.1) {
          ReleasedIsCleared(j, l, k.1);
        } else {
          OthersStay(j.s, l, k.1);
        }
      }
    }
  }

  lemma RoutesStayLeased(s: State, s': State, routes: Routes, phases: map<(Owner, Name), Phase>)
    requires PhasesAreLeased(s, phases) && PhasesAreLeased(s', phases) && RoutesAreLeased(s, routes, phases)
    ensures RoutesAreLeased(s', routes, phases)
  {
    forall e <- routes
      ensures var n := e.1.tunnel; n in s'.registry && s'.registry[n] == s.registry[n]
    {
      var k := (s.registry[e.1.tunnel], e.1.tunnel);
      assert k in phases && k.1 in NamesOf(s', k.0);
    }
  }

  /** A reader that registers stays there until register has returned. */
  lemma StaysInside(j: Joint, l: Step)
    requires CanStep(j, Lease(l)) && OpenOutside(j.s, j.phases)
    ensures OpenOutside(Apply(j.s, l), j.phases)
  {
    var s' := Apply(j.s, l);
    LeaseKeepsControls(j.s, l);
    forall k <- j.phases | !j.phases[k].Open? ensures Registers(s', k.0) && NameOf(s', k.0) == k.1 {
      assert Registers(j.s, k.0) && NameOf(j.s, k.0) == k.1;
      assert l.Read? ==> l.c != k.0;
    }
  }

  lemma LeaseStepKept(j: Joint, l: Step)
    requires JointInv(j) && CanStep(j, Lease(l))
    ensures JointInv(Do(j, Lease(l)))
  {
    LeaseSafety.StepKept(j.s, l);
    PhasesStayLeased(j, l);
    hide Inv, Apply, PhasesAreLeased, OpenOutside;
    RoutesStayLeased(j.s, Apply(j.s, l), j.routes, j.phases);
    StaysInside(j, l);
  }

  lemma RegistersItsOwn(s: State, c: Owner)
    requires Inv(s) && Registers(s, c)
    ensures NameOf(s, c) in NamesOf(s, c) && NameOf(s, c) in s.registry && s.registry[NameOf(s, c)] == c
  {
    ReaderNamesAreOwn(s, c);
    hide Inv;
    assert NameOf(s, c) in ReaderHolds(s.ctls[c].reader);
  }

  /** Every step at the gateway is for a name that its control holds. */
  lemma ActsOnItsOwn(j: Joint, step: JointStep)
    requires JointInv(j) && CanStep(j, step)
    ensures step.CloseRoutes? ==> step.name in NamesOf(j.s, step.c)
    ensures !step.Lease? && !step.CloseRoutes? ==> NameOf(j.s, ActorOf(step)) in NamesOf(j.s, ActorOf(step))
  {
    if !step.Lease? && !step.CloseRoutes? {
      RegistersItsOwn(j.s, ActorOf(step));
    }
    hide Inv, NamesOf, RoutesAreLeased, OpenOutside, TakenOut;
  }

  /** Without the routes of a name, what is known of the others does not depend on its tunnel. */
  lemma ClearedIsLeased(s: State, routes: Routes, phases: map<(Owner, Name), Phase>, c: Owner, n: Name,
                        after: map<(Owner, Name), Phase>)
    requires RoutesAreLeased(s, routes, phases) && forall k <- phases :: k != (c, n) ==> k in after
    ensures RoutesAreLeased(s, Gw.Without(routes, n), after)
  {
    forall e <- Gw.Without(routes, n)
      ensures e.1.tunnel in s.registry && (s.registry[e.1.tunnel], e.1.tunnel) in after
      ensures e.1.options.control == s.registry[e.1.tunnel].generation
    {
      assert e in routes;
    }
  }

  lemma PutIsLeased(s: State, routes: Routes, phases: map<(Owner, Name), Phase>, c: Owner, key: string, route: Gw.Route)
    requires RoutesAreLeased(s, routes, phases) && (c, route.tunnel) in phases && route.tunnel in NamesOf(s, c)
    requires route.options.control == c.generation
    ensures RoutesAreLeased(s, Gw.WithRoute(routes, key, route), phases)
  {
    forall e <- Gw.WithRoute(routes, key, route)
      ensures e.1.tunnel in s.registry && (s.registry[e.1.tunnel], e.1.tunnel) in phases
      ensures e.1.options.control == s.registry[e.1.tunnel].generation
    {
      assert e in routes || e == (key, route);
    }
  }

  lemma SamePhases(s: State, routes: Routes, phases: map<(Owner, Name), Phase>, after: map<(Owner, Name), Phase>)
    requires RoutesAreLeased(s, routes, phases) && phases.Keys <= after.Keys
    ensures RoutesAreLeased(s, routes, after)
  {
  }

  /** A tunnel that is being registered goes on to another phase. */
  lemma PhaseIsSet(s: State, phases: map<(Owner, Name), Phase>, c: Owner, n: Name, phase: Phase)
    requires PhasesAreLeased(s, phases) && OpenOutside(s, phases)
    requires Registers(s, c) && NameOf(s, c) == n && n in NamesOf(s, c)
    ensures PhasesAreLeased(s, phases[(c, n) := phase]) && OpenOutside(s, phases[(c, n) := phase])
  {
  }

  /** Registering keeps everything, for the control holds the name. */
  lemma BeginStepKept(j: Joint, c: Owner)
    requires JointInv(j) && CanStep(j, BeginRoutes(c))
    ensures JointInv(Do(j, BeginRoutes(c)))
  {
    ActsOnItsOwn(j, BeginRoutes(c));
    hide InOrder, TakenOut, Apply, Enabled, Inv, NamesOf, RoutesAreLeased, PhasesAreLeased, OpenOutside;
    PhaseIsSet(j.s, j.phases, c, NameOf(j.s, c), Building);
    ClearedIsLeased(j.s, j.routes, j.phases, c, NameOf(j.s, c), j.phases[(c, NameOf(j.s, c)) := Building]);
  }

  lemma PutStepKept(j: Joint, c: Owner, key: string, route: Gw.Route)
    requires JointInv(j) && CanStep(j, PutRoute(c, key, route))
    ensures JointInv(Do(j, PutRoute(c, key, route)))
  {
    ActsOnItsOwn(j, PutRoute(c, key, route));
    hide InOrder, TakenOut, Apply, Enabled, Inv, NamesOf, RoutesAreLeased, PhasesAreLeased, OpenOutside, Gw.Free, Gw.WithRoute;
    if Gw.Free(j.routes, key, route) {
      PutIsLeased(j.s, j.routes, j.phases, c, key, route);
    } else {
      PhaseIsSet(j.s, j.phases, c, NameOf(j.s, c), Failing);
      SamePhases(j.s, j.routes, j.phases, j.phases[(c, NameOf(j.s, c)) := Failing]);
    }
  }

  lemma AbortStepKept(j: Joint, c: Owner)
    requires JointInv(j) && CanStep(j, AbortRoutes(c))
    ensures JointInv(Do(j, AbortRoutes(c)))
  {
    hide Inv, NamesOf, RoutesAreLeased;
    ClearedIsLeased(j.s, j.routes, j.phases, c, NameOf(j.s, c), j.phases - {(c, NameOf(j.s, c))});
  }

  lemma FinishStepKept(j: Joint, c: Owner)
    requires JointInv(j) && CanStep(j, FinishRoutes(c))
    ensures JointInv(Do(j, FinishRoutes(c)))
  {
    hide Inv, NamesOf, RoutesAreLeased, InOrder, TakenOut, Apply, Enabled;
    SamePhases(j.s, j.routes, j.phases, j.phases[(c, NameOf(j.s, c)) := Open]);
  }

  lemma CloseStepKept(j: Joint, c: Owner, n: Name)
    requires JointInv(j) && CanStep(j, CloseRoutes(c, n))
    ensures JointInv(Do(j, CloseRoutes(c, n)))
  {
    hide Inv, NamesOf, RoutesAreLeased, TakenOut;
    ClearedIsLeased(j.s, j.routes, j.phases, c, n, j.phases - {(c, n)});
  }

  lemma JointStepKept(j: Joint, step: JointStep)
    requires JointInv(j) && CanStep(j, step)
    ensures JointInv(Do(j, step))
  {
    hide JointInv, CanStep, Do;
    match step
    case Lease(l) => LeaseStepKept(j, l);
    case BeginRoutes(c) => BeginStepKept(j, c);
    case PutRoute(c, key, route) => PutStepKept(j, c, key, route);
    case AbortRoutes(c) => AbortStepKept(j, c);
    case FinishRoutes(c) => FinishStepKept(j, c);
    case CloseRoutes(c, n) => CloseStepKept(j, c, n);
  }

  lemma {:induction false} JointRunKept(j: Joint, steps: seq<JointStep>)
    requires JointInv(j) && CanRun(j, steps)
    ensures JointInv(Outcome(j, steps))
    decreases |steps|
  {
    if steps != [] {
      hide JointInv;
      JointStepKept(j, steps[0]);
      JointRunKept(Do(j, steps[0]), steps[1..]);
    }
  }

  lemma BeginKept()
    ensures JointInv(Begin)
  {
  }

  // ---------- whose routes they are ----------

  /** Whatever controls register, close, lose and drop, in any interleaving: every route in the
      gateway was put there by the control that has the route's tunnel name now, and a name that
      is free has no routes. */
  lemma RoutesBelongToTheLeaseholder(steps: seq<JointStep>)
    requires CanRun(Begin, steps)
    ensures var j := Outcome(Begin, steps);
            && (forall e <- j.routes ::
                  e.1.tunnel in j.s.registry && e.1.options.control == j.s.registry[e.1.tunnel].generation)
            && (forall n :: n !in j.s.registry ==> Gw.Only(j.routes, n) == {})
  {
    BeginKept();
    JointRunKept(Begin, steps);
  }

  /** The routes of a name change only by a step at the gateway of the control that has the name;
      in particular no control takes away or replaces a route of another, and no release of a
      lease touches a route. */
  lemma OnlyTheLeaseholderChangesRoutes(steps: seq<JointStep>, step: JointStep, n: Name)
    requires CanRun(Begin, steps) && CanStep(Outcome(Begin, steps), step)
    ensures var j := Outcome(Begin, steps);
            Gw.Only(Do(j, step).routes, n) != Gw.Only(j.routes, n) ==>
              !step.Lease? && n in NamesOf(j.s, ActorOf(step))
  {
    BeginKept();
    JointRunKept(Begin, steps);
    var j := Outcome(Begin, steps);
    hide JointInv, Do, CanStep, NamesOf;
    if step.Lease? || n !in NamesOf(j.s, ActorOf(step)) {
      ForeignStepLeaves(j, step, n);
    }
  }

  // ---------- a route that was put in stays ----------

  /** The control itself clears the routes of the name, or puts one there in place of the other. */
  ghost predicate Undoes(j: Joint, step: JointStep, c: Owner, key: string, route: Gw.Route)
    requires CanStep(j, step)
  {
    match step
    case Lease(_) => false
    case PutRoute(d, k, r) => d == c && k == key && r.location == route.location && r.tunnel == route.tunnel
    case CloseRoutes(d, n) => d == c && n == route.tunnel
    case FinishRoutes(_) => false
    case _ => ActorOf(step) == c && NameOf(j.s, c) == route.tunnel
  }

  ghost predicate NeverUndone(j: Joint, steps: seq<JointStep>, c: Owner, key: string, route: Gw.Route)
    requires CanRun(j, steps)
    decreases |steps|
  {
    steps != [] ==> !Undoes(j, steps[0], c, key, route) && NeverUndone(Do(j, steps[0]), steps[1..], c, key, route)
  }

  /** A section that neither clears the tunnel nor puts its route there leaves it. */
  lemma SectionLeavesRoute(v: Routes, op: Gw.GwOp, key: string, route: Gw.Route)
    requires (key, route) in v
    requires match op
             case Clear(n) => n != route.tunnel
             case Put(k, r) => !(k == key && r.location == route.location && r.tunnel == route.tunnel)
    ensures (key, route) in Gw.DoOp(v, op)
  {
  }

  /** A tunnel is there until its control removes it. */
  lemma PhaseStays(j: Joint, step: JointStep, c: Owner, key: string, route: Gw.Route)
    requires CanStep(j, step) && (c, route.tunnel) in j.phases && !Undoes(j, step, c, key, route)
    ensures (c, route.tunnel) in Do(j, step).phases
  {
    hide Apply, Enabled, InOrder, TakenOut, Gw.Free, Gw.WithRoute, Gw.Without;
  }

  lemma OneOwner(s: State, c: Owner, d: Owner, n: Name)
    requires n in NamesOf(s, c) && n in NamesOf(s, d)
    ensures c == d
  {
  }

  lemma LeasedName(j: Joint, c: Owner, n: Name)
    requires JointInv(j) && (c, n) in j.phases
    ensures n in NamesOf(j.s, c)
  {
    hide Inv, NamesOf, RoutesAreLeased, OpenOutside;
  }

  lemma StepLeavesRoute(j: Joint, step: JointStep, c: Owner, key: string, route: Gw.Route)
    requires JointInv(j) && CanStep(j, step) && (c, route.tunnel) in j.phases && (key, route) in j.routes
    requires !Undoes(j, step, c, key, route)
    ensures (c, route.tunnel) in Do(j, step).phases && (key, route) in Do(j, step).routes
  {
    LeasedName(j, c, route.tunnel);
    hide JointInv, NamesOf, Do, InOrder, TakenOut, Enabled;
    PhaseStays(j, step, c, key, route);
    RoutesAfter(j, step);
    if SectionOf(j, step).Some? {
      SectionIsOwn(j, step);
      if Gw.OpTunnel(SectionOf(j, step).value) == route.tunnel {
        OneOwner(j.s, c, ActorOf(step), route.tunnel);
      }
      SectionLeavesRoute(j.routes, SectionOf(j, step).value, key, route);
    }
  }

  lemma {:induction false} RunLeavesRoute(j: Joint, steps: seq<JointStep>, c: Owner, key: string, route: Gw.Route)
    requires JointInv(j) && CanRun(j, steps) && (c, route.tunnel) in j.phases && (key, route) in j.routes
    requires NeverUndone(j, steps, c, key, route)
    ensures (key, route) in Outcome(j, steps).routes
    decreases |steps|
  {
    if steps != [] {
      hide JointInv, Undoes;
      StepLeavesRoute(j, steps[0], c, key, route);
      JointStepKept(j, steps[0]);
      RunLeavesRoute(Do(j, steps[0]), steps[1..], c, key, route);
    }
  }

  /** A route that a tunnel registers, on a host with a name and where no other tunnel has its location, is
      in the gateway from then on, whatever the other controls do, until the control itself clears it
      or puts another in its place. */
  lemma RegisteredRouteStays(steps: seq<JointStep>, c: Owner, key: string, route: Gw.Route, more: seq<JointStep>)
    requires CanRun(Begin, steps) && CanStep(Outcome(Begin, steps), PutRoute(c, key, route))
    requires key != "" && forall e <- Outcome(Begin, steps).routes ::
               e.0 == key && e.1.location == route.location ==> e.1.tunnel == route.tunnel
    requires var j := Do(Outcome(Begin, steps), PutRoute(c, key, route));
             CanRun(j, more) && NeverUndone(j, more, c, key, route)
    ensures (key, route) in Outcome(Do(Outcome(Begin, steps), PutRoute(c, key, route)), more).routes
  {
    BeginKept();
    JointRunKept(Begin, steps);
    JointStepKept(Outcome(Begin, steps), PutRoute(c, key, route));
    hide JointInv;
    RunLeavesRoute(Do(Outcome(Begin, steps), PutRoute(c, key, route)), more, c, key, route);
  }

  /** The lock section on the gateway that a step is. */
  ghost function SectionOf(j: Joint, step: JointStep): Option<Gw.GwOp>
    requires CanStep(j, step)
  {
    match step
    case BeginRoutes(c) => Some(Gw.Clear(NameOf(j.s, c)))
    case PutRoute(_, key, route) => Some(Gw.Put(key, route))
    case AbortRoutes(c) => Some(Gw.Clear(NameOf(j.s, c)))
    case CloseRoutes(_, n) => Some(Gw.Clear(n))
    case _ => None
  }

  lemma RoutesAfter(j: Joint, step: JointStep)
    requires CanStep(j, step)
    ensures var op := SectionOf(j, step); Do(j, step).routes == if op.Some? then Gw.DoOp(j.routes, op.value) else j.routes
  {
    hide Apply, Enabled, InOrder, TakenOut, Gw.Free, Gw.WithRoute, Gw.Without;
  }

  lemma SectionIsOwn(j: Joint, step: JointStep)
    requires JointInv(j) && CanStep(j, step) && SectionOf(j, step).Some?
    ensures !step.Lease? && Gw.OpTunnel(SectionOf(j, step).value) in NamesOf(j.s, ActorOf(step))
  {
    ActsOnItsOwn(j, step);
    hide JointInv, NamesOf, InOrder, TakenOut, Apply, Enabled;
  }

  lemma ForeignStepLeaves(j: Joint, step: JointStep, n: Name)
    requires JointInv(j) && CanStep(j, step) && (step.Lease? || n !in NamesOf(j.s, ActorOf(step)))
    ensures Gw.Only(Do(j, step).routes, n) == Gw.Only(j.routes, n)
  {
    hide JointInv, CanStep, Do, SectionOf, NamesOf, Gw.Only, Gw.DoOp, Gw.OpTunnel;
    RoutesAfter(j, step);
    if SectionOf(j, step).Some? {
      SectionIsOwn(j, step);
      Http.OpLeavesOthers(j.routes, SectionOf(j, step).value, n);
    }
  }

  lemma {:induction false} ListedIsHeld(todo: seq<(Name, Option<Slot>)>, n: Name)
    requires Listed(todo, n)
    ensures n in TodoHolds(todo)
  {
    if todo[0].0 != n {
      var i :| 0 <= i < |todo| && todo[i].0 == n;
      assert todo[1..][i - 1].0 == n;
      ListedIsHeld(todo[1..], n);
    }
  }

  /** A name on the drain list is not the one being registered. */
  lemma DrainedIsNotRegistered(s: State, c: Owner, n: Name)
    requires Inv(s) && c in s.ctls && Emptying(s.ctls[c].cleanup) && Listed(s.ctls[c].cleanup.todo, n)
    ensures !(Registers(s, c) && NameOf(s, c) == n)
  {
    Facts(s, c);
    hide Inv, Holds, Book, Consistent;
    ListedIsHeld(s.ctls[c].cleanup.todo, n);
    assert n in CleanupHolds(s.ctls[c].cleanup);
    assert n !in ReaderHolds(s.ctls[c].reader);
  }

  /** The order never holds a control up outside of register: where routes of tunnels that were taken
      out are still there, removing them is possible. */
  lemma RoutesCanBeRemoved(steps: seq<JointStep>, l: Step)
    requires CanRun(Begin, steps) && Enabled(Outcome(Begin, steps).s, l)
    requires l.Read? ==> !Registers(Outcome(Begin, steps).s, l.c)
    ensures var j := Outcome(Begin, steps);
            InOrder(j, l) || exists n :: CanStep(j, CloseRoutes(Actor(l), n))
  {
    BeginKept();
    JointRunKept(Begin, steps);
    if !InOrder(Outcome(Begin, steps), l) {
      RemovalIsPossible(Outcome(Begin, steps), l);
    }
  }

  lemma RemovalIsPossible(j: Joint, l: Step)
    requires JointInv(j) && Enabled(j.s, l) && !InOrder(j, l) && (l.Read? ==> !Registers(j.s, l.c))
    ensures exists n :: CanStep(j, CloseRoutes(Actor(l), n))
  {
    hide JointInv, CanStep, Apply;
    match l
    case Clean(c) =>
      var n := DrainCanRemove(j, c);
      assert CanStep(j, CloseRoutes(Actor(l), n));
    case Read(c, starts) =>
      var n := ReaderCanRemove(j, c, starts);
      assert CanStep(j, CloseRoutes(Actor(l), n));
    case _ =>
  }

  lemma CanRemove(j: Joint, c: Owner, n: Name)
    requires JointInv(j) && !NoRoutes(j, c, n) && c in j.s.ctls && TakenOut(j.s.ctls[c], n)
    requires !(Registers(j.s, c) && NameOf(j.s, c) == n)
    ensures CanStep(j, CloseRoutes(c, n))
  {
    hide Inv, TakenOut, InOrder, Apply, Enabled, NamesOf, RoutesAreLeased;
  }

  lemma DrainCanRemove(j: Joint, c: Owner) returns (n: Name)
    requires JointInv(j) && Enabled(j.s, Clean(c)) && !InOrder(j, Clean(c))
    ensures CanStep(j, CloseRoutes(c, n))
  {
    hide Inv, Apply, NamesOf, RoutesAreLeased, PhasesAreLeased, OpenOutside, CanStep, Registers, NoRoutes;
    n :| Listed(j.s.ctls[c].cleanup.todo, n) && !NoRoutes(j, c, n);
    DrainedIsNotRegistered(j.s, c, n);
    CanRemove(j, c, n);
  }

  lemma ReaderCanRemove(j: Joint, c: Owner, starts: bool) returns (n: Name)
    requires JointInv(j) && Enabled(j.s, Read(c, starts)) && !InOrder(j, Read(c, starts)) && !Registers(j.s, c)
    ensures CanStep(j, CloseRoutes(c, n))
  {
    hide Inv, Listed, NamesOf, RoutesAreLeased, PhasesAreLeased, OpenOutside, CanStep;
    n := LeavingName(j.s.ctls[c].reader);
    assert !NoRoutes(j, c, n);
    CanRemove(j, c, n);
  }

  /** The name whose leases the reader is giving back. */
  function LeavingName(r: Reader): Name {
    match r
    case FreeingPort(n, _, _) => n
    case FreeingName(n, _) => n
    case UndoingPort(req) => req.name
    case UndoingName(req) => req.name
    case _ => ""
  }
}
