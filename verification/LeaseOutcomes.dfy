/** What closing and registering a tunnel bring about, in terms of the two tables and the control's
    tunnels: over every run, and when nobody else acts. */
module LeaseOutcomes {
  import opened Wrappers
  import opened LeaseTables
  import opened LeaseProtocol
  import opened LeaseSafety
  import opened LeaseTheorems
  import opened LeaseReclaim

  /** No further message of the control is read. */
  ghost predicate NoMessage(steps: seq<Step>, c: Owner) {
    forall step <- steps :: step.c == c ==> !step.NewTunnel? && !step.CloseTunnel? && !step.EndReader?
  }

  // ---------- closing a tunnel ----------

  /** The reader is closing `n`, or has closed it. */
  ghost predicate ClosesName(ctl: Ctl, n: Name) {
    match ctl.reader
    case Detaching(m, k) => m == n && k.Rest?
    case FreeingPort(m, _, k) => m == n && k.Rest?
    case FreeingName(m, k) => m == n && k.Rest?
    case Idle => n !in Holds(ctl)
    case _ => false
  }

  lemma ShrunkOn(a: Holding, b: Holding, c: Holding)
    requires Shrunk(a, b) && Shrunk(b, c)
    ensures Shrunk(a, c)
  {
  }

  lemma ReadClosesName(s: State, c: Owner, starts: bool, n: Name)
    requires Enabled(s, Read(c, starts)) && WellFormed(s.ctls[c]) && ClosesName(s.ctls[c], n)
    ensures var ctl' := Apply(s, Read(c, starts)).ctls[c];
            ClosesName(ctl', n) && Shrunk(Holds(ctl'), Holds(s.ctls[c]))
  {
    hide Holds, WellFormed;
    var ctl := s.ctls[c];
    match ctl.reader
    case Detaching(_, k) =>
      if n in ctl.tunnels {
        ReaderDetaches(ctl, n, k);
      } else {
        NotHeld(ctl, n);
        ReaderKeeps(ctl, Idle);
      }
    case FreeingPort(_, slot, k) => ReaderTurns(ctl, n, None, FreeingName(n, k));
    case FreeingName(_, k) => ReaderLets(ctl, n, Idle);
  }

  lemma NotHeld(ctl: Ctl, n: Name)
    requires ctl.reader.Detaching? && !Emptying(ctl.cleanup) && n !in ctl.tunnels
    ensures n !in Holds(ctl)
  {
  }

  lemma CleanShrinks(s: State, c: Owner)
    requires Enabled(s, Clean(c)) && WellFormed(s.ctls[c])
    ensures var ctl' := Apply(s, Clean(c)).ctls[c];
            Shrunk(Holds(ctl'), Holds(s.ctls[c])) && ctl'.reader == s.ctls[c].reader
  {
    var ctl := s.ctls[c];
    var cl := ctl.cleanup;
    if cl.todo == [] {
      CleanupKeeps(ctl, if cl.Draining? then Closing else Dropped);
    } else if !cl.portFreed {
      CleanupFreesPort(ctl, cl.todo);
    } else {
      CleanupFreesName(ctl, cl.todo);
    }
  }

  lemma OtherShrinks(s: State, step: Step)
    requires Enabled(s, step) && Actor(step) in s.ctls && WellFormed(s.ctls[Actor(step)]) && !s.ctls[Actor(step)].reader.Ended?
    requires !step.Read? && !step.Clean? && !step.NewTunnel? && !step.CloseTunnel? && !step.EndReader?
    ensures var ctl' := Apply(s, step).ctls[Actor(step)];
            Shrunk(Holds(ctl'), Holds(s.ctls[Actor(step)])) && ctl'.reader == s.ctls[Actor(step)].reader
  {
    if step.BeginCleanup? {
      DrainKeeps(s.ctls[step.c], step.order, Draining(step.order, false));
    }
  }

  lemma CloseStep(s: State, step: Step, c: Owner, n: Name)
    requires Inv(s) && c in s.ctls && ClosesName(s.ctls[c], n) && Enabled(s, step)
    requires step.c == c ==> !step.NewTunnel? && !step.CloseTunnel? && !step.EndReader?
    ensures var s' := Apply(s, step);
            c in s'.ctls && ClosesName(s'.ctls[c], n) && Shrunk(Holds(s'.ctls[c]), Holds(s.ctls[c]))
  {
    hide Inv, WellFormed, Holds;
    OnlyTheActor(s, step);
    hide Apply;
    if Actor(step) == c {
      Facts(s, c);
      hide ClosesName;
      match step
      case Read(_, starts) => ReadClosesName(s, c, starts, n);
      case Clean(_) => CleanShrinks(s, c);
      case _ => OtherShrinks(s, step);
    }
  }

  lemma {:induction false} CloseRun(s: State, steps: seq<Step>, c: Owner, n: Name)
    requires Inv(s) && c in s.ctls && ClosesName(s.ctls[c], n) && Runs(s, steps) && NoMessage(steps, c)
    ensures var s' := After(s, steps);
            c in s'.ctls && ClosesName(s'.ctls[c], n) && Shrunk(Holds(s'.ctls[c]), Holds(s.ctls[c]))
    decreases |steps|
  {
    if steps != [] {
      hide Inv, ClosesName, Holds;
      CloseStep(s, steps[0], c, n);
      LeaseSafety.StepKept(s, steps[0]);
      CloseRun(Apply(s, steps[0]), steps[1..], c, n);
      ShrunkOn(Holds(After(s, steps).ctls[c]), Holds(Apply(s, steps[0]).ctls[c]), Holds(s.ctls[c]));
    }
  }

  /** Whatever the others do meanwhile, shutdowns of the control included: when the reader has come
      back from CloseTunnel, the control has no such tunnel and does not own the name, and the port
      that the tunnel had is free or entered under a name the control does not own. */
  lemma CloseReleases(steps: seq<Step>, c: Owner, n: Name, more: seq<Step>)
    requires Runs(Start, steps) && c in After(Start, steps).ctls && After(Start, steps).ctls[c].reader.Idle?
    requires var s1 := Apply(After(Start, steps), CloseTunnel(c, n));
             Runs(s1, more) && NoMessage(more, c) && c in After(s1, more).ctls && After(s1, more).ctls[c].reader.Idle?
    ensures var s := After(Start, steps);
            var s' := After(Apply(s, CloseTunnel(c, n)), more);
            && n !in s'.ctls[c].tunnels
            && !(n in s'.registry && s'.registry[n] == c)
            && (n in s.ctls[c].tunnels && s.ctls[c].tunnels[n].Some? ==>
                  var slot := s.ctls[c].tunnels[n].value;
                  slot in s'.ports ==> !(s'.ports[slot] in s'.registry && s'.registry[s'.ports[slot]] == c))
  {
    hide Inv;
    ReachableIsSound(steps);
    var s := After(Start, steps);
    var s1 := Apply(s, CloseTunnel(c, n));
    LeaseSafety.StepKept(s, CloseTunnel(c, n));
    CloseRun(s1, more, c, n);
    RunKept(s1, more);
    var s' := After(s1, more);
    CloseKeepsHolds(s, c, n);
    hide Apply;
    NamesAreHeld(s', c);
    assert n !in Holds(s'.ctls[c]);
    TunnelsAreHeld(s'.ctls[c]);
    assert n !in NamesOf(s', c);
    if n in s.ctls[c].tunnels && s.ctls[c].tunnels[n].Some? && s.ctls[c].tunnels[n].value in SlotsOf(s', c) {
      var slot := s.ctls[c].tunnels[n].value;
      TunnelIsHeld(s, c, n);
      PortHasOneName(s, c, n, s'.ports[slot], slot);
    }
  }

  lemma CloseKeepsHolds(s: State, c: Owner, n: Name)
    requires c in s.ctls && s.ctls[c].reader.Idle?
    ensures var s1 := Apply(s, CloseTunnel(c, n)); c in s1.ctls && ClosesName(s1.ctls[c], n) && Holds(s1.ctls[c]) == Holds(s.ctls[c])
  {
  }

  lemma TunnelsAreHeld(ctl: Ctl)
    ensures ctl.tunnels.Keys <= Holds(ctl).Keys
  {
  }

  lemma TunnelIsHeld(s: State, c: Owner, n: Name)
    requires Inv(s) && c in s.ctls && n in s.ctls[c].tunnels
    ensures n in Holds(s.ctls[c]) && Holds(s.ctls[c])[n] == s.ctls[c].tunnels[n]
  {
    Facts(s, c);
    hide Inv;
  }

  // ---------- and the reader gets there ----------

  function CloseRank(r: Reader): nat {
    match r
    case Detaching(_, _) => 3
    case FreeingPort(_, _, _) => 2
    case FreeingName(_, _) => 1
    case _ => 0
  }

  lemma ReadLowersRank(s: State, c: Owner, n: Name)
    requires Enabled(s, Read(c, true)) && ClosesName(s.ctls[c], n) && CloseRank(s.ctls[c].reader) > 0
    ensures var ctl' := Apply(s, Read(c, true)).ctls[c];
            && CloseRank(ctl'.reader) < CloseRank(s.ctls[c].reader) && ctl'.cleanup == s.ctls[c].cleanup
            && !ctl'.reader.Detaching?
  {
    hide Holds;
  }

  lemma {:induction false} CloseReads(s: State, c: Owner, n: Name) returns (steps: seq<Step>)
    requires Inv(s) && c in s.ctls && ClosesName(s.ctls[c], n) && (s.ctls[c].reader.Detaching? ==> !Emptying(s.ctls[c].cleanup))
    ensures Runs(s, steps) && forall step <- steps :: step == Read(c, true)
    ensures c in After(s, steps).ctls && After(s, steps).ctls[c].reader.Idle?
    decreases CloseRank(s.ctls[c].reader)
  {
    if CloseRank(s.ctls[c].reader) == 0 {
      steps := [];
    } else {
      var s' := Apply(s, Read(c, true));
      ReadLowersRank(s, c, n);
      CloseStep(s, Read(c, true), c, n);
      LeaseSafety.StepKept(s, Read(c, true));
      hide Inv, ClosesName, Apply;
      var rest := CloseReads(s', c, n);
      RunsFirst(s, Read(c, true), rest);
      steps := [Read(c, true)] + rest;
    }
  }

  /** The control can always come back from CloseTunnel by steps of its own: a drain that has the
      tunnels' lock comes to its end first. */
  lemma CloseCanFinish(before: seq<Step>, c: Owner, n: Name) returns (steps: seq<Step>)
    requires Runs(Start, before) && c in After(Start, before).ctls && After(Start, before).ctls[c].reader.Idle?
    ensures var s1 := Apply(After(Start, before), CloseTunnel(c, n));
            && Runs(s1, steps) && Own(steps, c) && NoMessage(steps, c)
            && c in After(s1, steps).ctls && After(s1, steps).ctls[c].reader.Idle?
  {
    ReachableIsSound(before);
    var s := After(Start, before);
    assert Tidy(s.ctls[c]);
    LeaseSafety.StepKept(s, CloseTunnel(c, n));
    CloseKeepsHolds(s, c, n);
    hide Inv, AllTidy, Holds;
    var s1 := Apply(s, CloseTunnel(c, n));
    var drain: seq<Step> := [];
    if Emptying(s1.ctls[c].cleanup) {
      drain := DrainEnds(s1, c);
    }
    var s2 := After(s1, drain);
    RunKept(s1, drain);
    CloseRun(s1, drain, c, n);
    hide ClosesName, Apply;
    var reading := CloseReads(s2, c, n);
    RunsAppend(s1, drain, reading);
    steps := drain + reading;
  }

  // ---------- closing alone ----------

  /** The control with these tunnels and this reader. */
  function Reading(s: State, registry: Registry, ports: Ports, c: Owner, tunnels: Tunnels, reader: Reader): State
    requires c in s.ctls
  {
    State(registry, ports, s.ctls[c := s.ctls[c].(tunnels := tunnels, reader := reader)])
  }

  /** One own step of the reader, in these terms. */
  lemma ReadingOn(s: State, registry: Registry, ports: Ports, c: Owner, tunnels: Tunnels, reader: Reader, starts: bool)
    requires c in s.ctls && !Emptying(s.ctls[c].cleanup) && !reader.Idle? && !reader.Ended?
    ensures var e := ReadEffect(registry, ports, c, tunnels, reader, starts);
            && Enabled(Reading(s, registry, ports, c, tunnels, reader), Read(c, starts))
            && Apply(Reading(s, registry, ports, c, tunnels, reader), Read(c, starts))
               == Reading(s, e.registry, e.ports, c, e.tunnels, e.reader)
  {
    hide ReadEffect;
  }

  /** Every step is one of the control's reader, with that outcome of binding a port. */
  predicate Reads(steps: seq<Step>, c: Owner, starts: bool) {
    forall step <- steps :: step == Read(c, starts)
  }

  /** One such step, and then others. */
  lemma ReadFirst(s: State, c: Owner, starts: bool, rest: seq<Step>)
    requires Enabled(s, Read(c, starts)) && Runs(Apply(s, Read(c, starts)), rest) && Reads(rest, c, starts)
    ensures Runs(s, [Read(c, starts)] + rest) && Reads([Read(c, starts)] + rest, c, starts)
    ensures After(s, [Read(c, starts)] + rest) == After(Apply(s, Read(c, starts)), rest)
  {
    RunsFirst(s, Read(c, starts), rest);
  }

  /** The tables and the tunnels without the tunnel of this name. */
  function NamesWithout(registry: Registry, tunnels: Tunnels, n: Name): Registry {
    if n in tunnels then registry - {n} else registry
  }

  function PortsWithout(ports: Ports, tunnels: Tunnels, n: Name): Ports {
    if n in tunnels && tunnels[n].Some? then ports - {tunnels[n].value} else ports
  }

  /** Name and port of a managed tunnel are its control's. */
  predicate TunnelOwned(registry: Registry, ports: Ports, c: Owner, tunnels: Tunnels, n: Name) {
    n in tunnels ==>
      && n in registry && registry[n] == c
      && (tunnels[n].Some? ==> tunnels[n].value in ports && ports[tunnels[n].value] == n)
  }

  /** The reader's steps of detaching. */
  lemma DetachReads(s: State, registry: Registry, ports: Ports, c: Owner, tunnels: Tunnels, n: Name, k: Next, starts: bool)
    returns (steps: seq<Step>)
    requires c in s.ctls && !Emptying(s.ctls[c].cleanup) && TunnelOwned(registry, ports, c, tunnels, n)
    ensures var b := Reading(s, registry, ports, c, tunnels, Detaching(n, k));
            && Runs(b, steps) && Reads(steps, c, starts)
            && After(b, steps)
               == Reading(s, NamesWithout(registry, tunnels, n), PortsWithout(ports, tunnels, n), c, tunnels - {n}, AfterReader(k))
  {
    ReadingOn(s, registry, ports, c, tunnels, Detaching(n, k), starts);
    if n in tunnels {
      var slot, less := tunnels[n], tunnels - {n};
      var ports' := PortsWithout(ports, tunnels, n);
      assert WithoutSlot(ports, slot, n) == ports' && WithoutOwned(registry, n, c) == registry - {n};
      ReadingOn(s, registry, ports, c, less, FreeingPort(n, slot, k), starts);
      ReadingOn(s, registry, ports', c, less, FreeingName(n, k), starts);
      hide Apply, Enabled, Reading;
      ReadFirst(Reading(s, registry, ports', c, less, FreeingName(n, k)), c, starts, []);
      ReadFirst(Reading(s, registry, ports, c, less, FreeingPort(n, slot, k)), c, starts, [Read(c, starts)] + []);
      steps := [Read(c, starts)] + ([Read(c, starts)] + []);
      ReadFirst(Reading(s, registry, ports, c, tunnels, Detaching(n, k)), c, starts, steps);
      steps := [Read(c, starts)] + steps;
    } else {
      assert tunnels - {n} == tunnels;
      hide Apply, Enabled, Reading;
      ReadFirst(Reading(s, registry, ports, c, tunnels, Detaching(n, k)), c, starts, []);
      steps := [Read(c, starts)] + [];
    }
  }

  lemma TunnelOwns(s: State, c: Owner, n: Name)
    requires Inv(s) && c in s.ctls
    ensures TunnelOwned(s.registry, s.ports, c, s.ctls[c].tunnels, n)
  {
    if n in s.ctls[c].tunnels {
      TunnelIsHeld(s, c, n);
      NamesAreHeld(s, c);
      hide Inv;
      assert n in NamesOf(s, c);
    }
  }

  /** Nobody else acting, CloseTunnel takes the tunnel, its port and its name away, and nothing else;
      without such a tunnel it changes nothing. */
  lemma CloseAlone(before: seq<Step>, c: Owner, n: Name) returns (steps: seq<Step>)
    requires Runs(Start, before) && c in After(Start, before).ctls
    requires After(Start, before).ctls[c].reader.Idle? && !Emptying(After(Start, before).ctls[c].cleanup)
    ensures var s := After(Start, before);
            Runs(s, steps) && steps != [] && steps[0] == CloseTunnel(c, n) && Reads(steps[1..], c, true)
    ensures var s := After(Start, before);
            var s', had := After(s, steps), s.ctls[c].tunnels;
            && s'.ctls == s.ctls[c := s.ctls[c].(tunnels := had - {n})]
            && s'.registry == (if n in had then s.registry - {n} else s.registry)
            && s'.ports == (if n in had && had[n].Some? then s.ports - {had[n].value} else s.ports)
  {
    ReachableIsSound(before);
    var s := After(Start, before);
    TunnelOwns(s, c, n);
    hide Inv, AllTidy;
    var tunnels := s.ctls[c].tunnels;
    var b := Reading(s, s.registry, s.ports, c, tunnels, Detaching(n, Rest));
    assert Apply(s, CloseTunnel(c, n)) == b && Enabled(s, CloseTunnel(c, n));
    hide Apply, Enabled;
    var rest := DetachReads(s, s.registry, s.ports, c, tunnels, n, Rest, true);
    RunsFirst(s, CloseTunnel(c, n), rest);
    steps := [CloseTunnel(c, n)] + rest;
  }

  // ---------- registering alone ----------

  lemma ClaimFails(s: State, registry: Registry, ports: Ports, c: Owner, tunnels: Tunnels, req: Req, starts: bool)
    returns (steps: seq<Step>)
    requires c in s.ctls && !Emptying(s.ctls[c].cleanup) && (req.name == "" || req.name in registry)
    ensures var b := Reading(s, registry, ports, c, tunnels, ClaimingName(req));
            && Runs(b, steps) && Reads(steps, c, starts) && After(b, steps) == Reading(s, registry, ports, c, tunnels, Idle)
  {
    ReadingOn(s, registry, ports, c, tunnels, ClaimingName(req), starts);
    hide Apply, Enabled, Reading;
    ReadFirst(Reading(s, registry, ports, c, tunnels, ClaimingName(req)), c, starts, []);
    steps := [Read(c, starts)] + [];
  }

  lemma PortClaimFails(s: State, registry: Registry, ports: Ports, c: Owner, tunnels: Tunnels, req: Req, starts: bool)
    returns (steps: seq<Step>)
    requires c in s.ctls && !Emptying(s.ctls[c].cleanup) && req.name != "" && req.name !in registry
    requires req.slot.Some? && (req.slot.value.port == 0 || req.slot.value in ports)
    ensures var b := Reading(s, registry, ports, c, tunnels, ClaimingName(req));
            && Runs(b, steps) && Reads(steps, c, starts) && After(b, steps) == Reading(s, registry, ports, c, tunnels, Idle)
  {
    var claimed := registry[req.name := c];
    assert claimed - {req.name} == registry;
    ReadingOn(s, registry, ports, c, tunnels, ClaimingName(req), starts);
    ReadingOn(s, claimed, ports, c, tunnels, ClaimingPort(req), starts);
    ReadingOn(s, claimed, ports, c, tunnels, UndoingName(req), starts);
    hide Apply, Enabled, Reading;
    ReadFirst(Reading(s, claimed, ports, c, tunnels, UndoingName(req)), c, starts, []);
    ReadFirst(Reading(s, claimed, ports, c, tunnels, ClaimingPort(req)), c, starts, [Read(c, starts)] + []);
    steps := [Read(c, starts)] + ([Read(c, starts)] + []);
    ReadFirst(Reading(s, registry, ports, c, tunnels, ClaimingName(req)), c, starts, steps);
    steps := [Read(c, starts)] + steps;
  }

  function PortsWith(ports: Ports, req: Req): Ports {
    if req.slot.Some? then ports[req.slot.value := req.name] else ports
  }

  /** Name and port are claimed, and the tunnel is about to start. */
  lemma ClaimsSucceed(s: State, registry: Registry, ports: Ports, c: Owner, tunnels: Tunnels, req: Req, starts: bool)
    returns (steps: seq<Step>)
    requires c in s.ctls && !Emptying(s.ctls[c].cleanup) && req.name != "" && req.name !in registry
    requires req.slot.Some? ==> req.slot.value.port != 0 && req.slot.value !in ports
    ensures var b := Reading(s, registry, ports, c, tunnels, ClaimingName(req));
            && Runs(b, steps) && Reads(steps, c, starts)
            && After(b, steps) == Reading(s, registry[req.name := c], PortsWith(ports, req), c, tunnels, Starting(req))
  {
    var claimed := registry[req.name := c];
    ReadingOn(s, registry, ports, c, tunnels, ClaimingName(req), starts);
    steps := [];
    if req.slot.Some? {
      ReadingOn(s, claimed, ports, c, tunnels, ClaimingPort(req), starts);
      hide Apply, Enabled, Reading;
      ReadFirst(Reading(s, claimed, ports, c, tunnels, ClaimingPort(req)), c, starts, []);
      steps := [Read(c, starts)] + [];
    }
    hide Apply, Enabled, Reading;
    ReadFirst(Reading(s, registry, ports, c, tunnels, ClaimingName(req)), c, starts, steps);
    steps := [Read(c, starts)] + steps;
  }

  lemma StartSucceeds(s: State, registry: Registry, ports: Ports, c: Owner, tunnels: Tunnels, req: Req) returns (steps: seq<Step>)
    requires c in s.ctls && !Emptying(s.ctls[c].cleanup) && req.name !in tunnels
    ensures var b := Reading(s, registry, ports, c, tunnels, Starting(req));
            && Runs(b, steps) && Reads(steps, c, true)
            && After(b, steps) == Reading(s, registry, ports, c, tunnels[req.name := req.slot], Idle)
  {
    ReadingOn(s, registry, ports, c, tunnels, Starting(req), true);
    ReadingOn(s, registry, ports, c, tunnels, Inserting(req), true);
    hide Apply, Enabled, Reading;
    ReadFirst(Reading(s, registry, ports, c, tunnels, Inserting(req)), c, true, []);
    ReadFirst(Reading(s, registry, ports, c, tunnels, Starting(req)), c, true, [Read(c, true)] + []);
    steps := [Read(c, true)] + ([Read(c, true)] + []);
  }

  /** A tunnel that does not start gives back what it claimed. */
  lemma StartFails(s: State, registry: Registry, ports: Ports, c: Owner, tunnels: Tunnels, req: Req) returns (steps: seq<Step>)
    requires c in s.ctls && !Emptying(s.ctls[c].cleanup) && req.name !in registry
    requires req.slot.Some? ==> req.slot.value !in ports
    ensures var b := Reading(s, registry[req.name := c], PortsWith(ports, req), c, tunnels, Starting(req));
            && Runs(b, steps) && Reads(steps, c, false)
            && After(b, steps) == Reading(s, registry, ports, c, tunnels, Idle)
  {
    var claimed, bound := registry[req.name := c], PortsWith(ports, req);
    assert claimed - {req.name} == registry;
    assert WithoutSlot(bound, req.slot, req.name) == ports;
    ReadingOn(s, claimed, bound, c, tunnels, Starting(req), false);
    ReadingOn(s, claimed, bound, c, tunnels, UndoingPort(req), false);
    ReadingOn(s, claimed, ports, c, tunnels, UndoingName(req), false);
    hide Apply, Enabled, Reading;
    ReadFirst(Reading(s, claimed, ports, c, tunnels, UndoingName(req)), c, false, []);
    steps := [Read(c, false)] + [];
    if req.slot.Some? {
      ReadFirst(Reading(s, claimed, bound, c, tunnels, UndoingPort(req)), c, false, steps);
      steps := [Read(c, false)] + steps;
    }
    ReadFirst(Reading(s, claimed, bound, c, tunnels, Starting(req)), c, false, steps);
    steps := [Read(c, false)] + steps;
  }

  /** The name is claimable, and so is the port. */
  predicate CanClaim(registry: Registry, ports: Ports, req: Req) {
    && req.name != "" && req.name !in registry
    && (req.slot.Some? ==> req.slot.value.port != 0 && req.slot.value !in ports)
  }

  lemma ClaimReads(s: State, registry: Registry, ports: Ports, c: Owner, tunnels: Tunnels, req: Req, starts: bool)
    returns (steps: seq<Step>)
    requires c in s.ctls && !Emptying(s.ctls[c].cleanup) && req.name !in tunnels
    ensures var b := Reading(s, registry, ports, c, tunnels, ClaimingName(req));
            && Runs(b, steps) && Reads(steps, c, starts)
            && After(b, steps)
               == if starts && CanClaim(registry, ports, req)
                  then Reading(s, registry[req.name := c], PortsWith(ports, req), c, tunnels[req.name := req.slot], Idle)
                  else Reading(s, registry, ports, c, tunnels, Idle)
  {
    hide Reading, PortsWith;
    if CanClaim(registry, ports, req) {
      var claims := ClaimsSucceed(s, registry, ports, c, tunnels, req, starts);
      var rest;
      if starts {
        rest := StartSucceeds(s, registry[req.name := c], PortsWith(ports, req), c, tunnels, req);
      } else {
        rest := StartFails(s, registry, ports, c, tunnels, req);
      }
      RunsAppend(Reading(s, registry, ports, c, tunnels, ClaimingName(req)), claims, rest);
      steps := claims + rest;
    } else if req.name == "" || req.name in registry {
      steps := ClaimFails(s, registry, ports, c, tunnels, req, starts);
    } else {
      steps := PortClaimFails(s, registry, ports, c, tunnels, req, starts);
    }
  }

  /** Nobody else acting, NewTunnel first takes a tunnel of the same name of this control away, with its
      name and port; then, exactly if the new name is not empty and free, the new port is free, and the
      tunnel starts, name, port and tunnel are entered, and else none of them. A closed control, and an
      invalid port, change nothing. */
  lemma RegisterAlone(before: seq<Step>, c: Owner, req: Req, starts: bool) returns (steps: seq<Step>)
    requires Runs(Start, before) && c in After(Start, before).ctls
    requires After(Start, before).ctls[c].reader.Idle? && !Emptying(After(Start, before).ctls[c].cleanup)
    ensures var s := After(Start, before);
            Runs(s, steps) && steps != [] && steps[0] == NewTunnel(c, req) && Reads(steps[1..], c, starts)
    ensures var s := After(Start, before);
            var s', had, n := After(s, steps), s.ctls[c].tunnels, req.name;
            if s.ctls[c].closed || (req.slot.Some? && !(0 < req.slot.value.port <= 65535)) then s' == s
            else
              var names := if n in had then s.registry - {n} else s.registry;
              var ports := if n in had && had[n].Some? then s.ports - {had[n].value} else s.ports;
              if starts && n != "" && n !in names && (req.slot.Some? ==> req.slot.value !in ports) then
                && s'.registry == names[n := c]
                && s'.ports == (if req.slot.Some? then ports[req.slot.value := n] else ports)
                && s'.ctls == s.ctls[c := s.ctls[c].(tunnels := had[n := req.slot])]
              else
                s'.registry == names && s'.ports == ports && s'.ctls == s.ctls[c := s.ctls[c].(tunnels := had - {n})]
  {
    ReachableIsSound(before);
    var s := After(Start, before);
    TunnelOwns(s, c, req.name);
    hide Inv, AllTidy;
    if s.ctls[c].closed || !ValidPort(req.slot) {
      assert Apply(s, NewTunnel(c, req)) == s;
      RunsFirst(s, NewTunnel(c, req), []);
      steps := [NewTunnel(c, req)] + [];
    } else {
      steps := RegisterReads(s, c, req, starts);
      hide Apply;
      assert (s.ctls[c].tunnels - {req.name})[req.name := req.slot] == s.ctls[c].tunnels[req.name := req.slot];
    }
  }

  lemma RegisterReads(s: State, c: Owner, req: Req, starts: bool) returns (steps: seq<Step>)
    requires c in s.ctls && s.ctls[c].reader.Idle? && !Emptying(s.ctls[c].cleanup)
    requires TunnelOwned(s.registry, s.ports, c, s.ctls[c].tunnels, req.name) && !s.ctls[c].closed && ValidPort(req.slot)
    ensures Runs(s, steps) && steps != [] && steps[0] == NewTunnel(c, req) && Reads(steps[1..], c, starts)
    ensures var had, n := s.ctls[c].tunnels, req.name;
            var names, ports := NamesWithout(s.registry, had, n), PortsWithout(s.ports, had, n);
            After(s, steps)
            == if starts && CanClaim(names, ports, req)
               then Reading(s, names[n := c], PortsWith(ports, req), c, (had - {n})[n := req.slot], Idle)
               else Reading(s, names, ports, c, had - {n}, Idle)
  {
    var had, n := s.ctls[c].tunnels, req.name;
    var b := Reading(s, s.registry, s.ports, c, had, Detaching(n, Claim(req)));
    assert Apply(s, NewTunnel(c, req)) == b && Enabled(s, NewTunnel(c, req));
    hide Apply, Enabled, Reading, CanClaim, NamesWithout, PortsWithout, PortsWith, TunnelOwned;
    var detach := DetachReads(s, s.registry, s.ports, c, had, n, Claim(req), starts);
    var claim := ClaimReads(s, NamesWithout(s.registry, had, n), PortsWithout(s.ports, had, n), c, had - {n}, req, starts);
    RunsAppend(b, detach, claim);
    RunsFirst(s, NewTunnel(c, req), detach + claim);
    steps := [NewTunnel(c, req)] + (detach + claim);
  }
}
