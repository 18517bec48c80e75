/** The global tables of tunnel names and ports, a control's tunnels, and the registration of
    one tunnel with its rollback (registry.rs, ports.rs, manager.rs, register.rs). Names are
    taken as already trimmed. The TCP and UDP port tables are one map keyed by protocol and
    port. */
module LeaseTables {
  import opened Wrappers

  type Name = string

  datatype Protocol = Tcp | Udp

  datatype Slot = Slot(protocol: Protocol, port: nat)

  /** Session id and generation: the generation is drawn once per control. */
  datatype Owner = Owner(session: string, generation: nat)

  type Registry = map<Name, Owner>

  type Ports = map<Slot, Name>

  /** Each tunnel with the port it occupies; HTTP and HTTPS tunnels occupy none. */
  type Tunnels = map<Name, Option<Slot>>

  datatype ClaimError = EmptyName | NameTaken(holder: Owner) | InvalidPort | PortTaken(tunnel: Name) | StartFailed | AlreadyPresent

  predicate ValidPort(slot: Option<Slot>) {
    slot.Some? ==> 0 < slot.value.port <= 65535
  }

  function WithoutOwned(r: Registry, name: Name, owner: Owner): Registry {
    if name in r && r[name] == owner then r - {name} else r
  }

  function WithoutSlot(p: Ports, slot: Option<Slot>, name: Name): Ports {
    if slot.Some? && slot.value in p && p[slot.value] == name then p - {slot.value} else p
  }

  class TunnelRegistry {
    var byName: Registry

    constructor ()
      ensures byName == map[]
    {
      byName := map[];
    }

    method TryInsert(name: Name, owner: Owner) returns (r: Result<(), ClaimError>)
      modifies this
      ensures r.Ok? <==> name != "" && name !in old(byName)
      ensures r.Ok? ==> byName == old(byName)[name := owner]
      ensures r.Err? ==> byName == old(byName)
    {
      if name == "" {
        return Err(EmptyName);
      }
      if name in byName {
        return Err(NameTaken(byName[name]));
      }
      byName := byName[name := owner];
      r := Ok(());
    }

    method RemoveIfOwner(name: Name, owner: Owner)
      modifies this
      ensures byName == WithoutOwned(old(byName), name, owner)
    {
      if name in byName && byName[name] == owner {
        byName := byName - {name};
      }
    }
  }

  class PortTable {
    var byPort: Ports

    constructor ()
      ensures byPort == map[]
    {
      byPort := map[];
    }

    method Claim(slot: Slot, name: Name) returns (r: Result<(), ClaimError>)
      modifies this
      ensures r.Ok? <==> slot.port != 0 && slot !in old(byPort)
      ensures r.Ok? ==> byPort == old(byPort)[slot := name]
      ensures r.Err? ==> byPort == old(byPort)
    {
      if slot.port == 0 {
        return Err(InvalidPort);
      }
      if slot in byPort {
        return Err(PortTaken(byPort[slot]));
      }
      byPort := byPort[slot := name];
      r := Ok(());
    }

    /** Checks the name alone, not the owner behind it. */
    method Release(slot: Slot, name: Name)
      modifies this
      ensures byPort == WithoutSlot(old(byPort), Some(slot), name)
    {
      if slot in byPort && byPort[slot] == name {
        byPort := byPort - {slot};
      }
    }
  }

  class Control {
    const owner: Owner
    const registry: TunnelRegistry
    const ports: PortTable
    var tunnels: Tunnels

    constructor (owner: Owner, registry: TunnelRegistry, ports: PortTable)
      ensures this.owner == owner && this.registry == registry && this.ports == ports && tunnels == map[]
    {
      this.owner := owner;
      this.registry := registry;
      this.ports := ports;
      tunnels := map[];
    }

    /** Every tunnel here is registered to this control and has its port. */
    ghost predicate Valid()
      reads this, registry, ports
    {
      && (forall n <- tunnels :: n in registry.byName && registry.byName[n] == owner)
      && (forall n <- tunnels :: tunnels[n].Some? ==>
            tunnels[n].value in ports.byPort && ports.byPort[tunnels[n].value] == n)
    }

    /** release_global_slot: the port before the name. */
    method ReleaseGlobalSlot(name: Name, slot: Option<Slot>)
      modifies registry, ports
      ensures registry.byName == WithoutOwned(old(registry.byName), name, owner)
      ensures ports.byPort == WithoutSlot(old(ports.byPort), slot, name)
    {
      if slot.Some? {
        ports.Release(slot.value, name);
      }
      registry.RemoveIfOwner(name, owner);
    }

    /** detach_tunnel: afterwards the tunnel, its name and its port are gone, all others stay. */
    method Detach(name: Name)
      requires Valid()
      modifies this, registry, ports
      ensures Valid()
      ensures tunnels == old(tunnels) - {name}
      ensures name !in old(tunnels) ==> registry.byName == old(registry.byName) && ports.byPort == old(ports.byPort)
      ensures name in old(tunnels) ==>
                && registry.byName == old(registry.byName) - {name}
                && ports.byPort == old(ports.byPort) - SlotSet(old(tunnels)[name])
    {
      if name in tunnels {
        var slot := tunnels[name];
        tunnels := tunnels - {name};
        ReleaseGlobalSlot(name, slot);
      }
    }

    /** register_tcp_tunnel and its siblings for an undisturbed caller: `starts` is the outcome
        of binding the port. A tunnel of the same name in this control is detached first;
        then either name, port and tunnel are all entered, or nothing is. */
    method Register(name: Name, slot: Option<Slot>, starts: bool) returns (r: Result<(), ClaimError>)
      requires Valid()
      modifies this, registry, ports
      ensures Valid()
      ensures !ValidPort(slot) ==>
                && r == Err(InvalidPort) && tunnels == old(tunnels)
                && registry.byName == old(registry.byName) && ports.byPort == old(ports.byPort)
      ensures ValidPort(slot) ==>
                var mine := name in old(tunnels);
                var names := if mine then old(registry.byName) - {name} else old(registry.byName);
                var taken := if mine then old(ports.byPort) - SlotSet(old(tunnels)[name]) else old(ports.byPort);
                && (r.Ok? <==> name != "" && name !in names && SlotSet(slot) !! taken.Keys && starts)
                && (r.Ok? ==>
                      && registry.byName == names[name := owner]
                      && ports.byPort == (if slot.Some? then taken[slot.value := name] else taken)
                      && tunnels == old(tunnels)[name := slot])
                && (r.Err? ==> registry.byName == names && ports.byPort == taken && tunnels == old(tunnels) - {name})
    {
      if slot.Some? && (slot.value.port == 0 || slot.value.port > 65535) {
        return Err(InvalidPort);
      }
      Detach(name);
      r := registry.TryInsert(name, owner);
      if r.Err? {
        return;
      }
      if slot.Some? {
        r := ports.Claim(slot.value, name);
        if r.Err? {
          registry.RemoveIfOwner(name, owner);
          return;
        }
      }
      if !starts || name in tunnels {
        ReleaseGlobalSlot(name, slot);
        return Err(if starts then AlreadyPresent else StartFailed);
      }
      tunnels := tunnels[name := slot];
    }
  }

  function SlotSet(slot: Option<Slot>): set<Slot> {
    if slot.Some? then {slot.value} else {}
  }
}
