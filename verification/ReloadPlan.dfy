/** What a changed client configuration calls for (reload/plan.rs). */
module ReloadPlan {
  import opened Lex
  import opened Sorting

  /** A tunnel's name, and all its other settings as one value. */
  datatype TunnelConfig = TunnelConfig(name: string, settings: string)

  /** Everything that connection_settings_eq compares. */
  datatype ConnectionSettings = ConnectionSettings(
    server: string, user: string, agentId: string, auth: string, transport: string, udpPacketSize: nat)

  datatype ClientConfig = ClientConfig(connection: ConnectionSettings, tunnels: seq<TunnelConfig>, log: string)

  datatype TunnelChanges = TunnelChanges(added: seq<TunnelConfig>, removed: seq<string>, updated: seq<TunnelConfig>)

  datatype ReloadPlan = Noop | Apply(changes: TunnelChanges, connectionSettingsChanged: bool)

  datatype ReloadLevel = NoopLevel | TunnelsOnly | ReconnectControl

  datatype ReloadOutcome = ReloadOutcome(
    level: ReloadLevel,
    added: seq<string>,
    removed: seq<string>,
    updated: seq<string>,
    failed: seq<(string, string)>,
    connectionSettingsChanged: bool)

  type TunnelMap = map<string, TunnelConfig>

  function NameOf(t: TunnelConfig): string {
    t.name
  }

  function Itself(s: string): string {
    s
  }

  function Names(ts: seq<TunnelConfig>): (names: seq<string>)
    ensures |names| == |ts| && forall i :: 0 <= i < |ts| ==> names[i] == ts[i].name
  {
    seq(|ts|, i requires 0 <= i < |ts| => ts[i].name)
  }

  /** The tunnels by name; of two with one name the later counts. */
  function ToMap(ts: seq<TunnelConfig>): TunnelMap {
    if ts == [] then map[]
    else
      var last := ts[|ts| - 1];
      ToMap(ts[..|ts| - 1])[last.name := last]
  }

  lemma {:induction false} ToMapFacts(ts: seq<TunnelConfig>)
    ensures forall n <- ToMap(ts) :: ToMap(ts)[n].name == n && ToMap(ts)[n] in ts
    ensures forall t <- ts :: t.name in ToMap(ts)
  {
    if ts != [] {
      ToMapFacts(ts[..|ts| - 1]);
    }
  }

  /** The last tunnel of a name counts. */
  lemma {:induction false} LastOfANameCounts(ts: seq<TunnelConfig>, i: nat)
    requires i < |ts| && forall j :: i < j < |ts| ==> ts[j].name != ts[i].name
    ensures ts[i].name in ToMap(ts) && ToMap(ts)[ts[i].name] == ts[i]
  {
    if i < |ts| - 1 {
      LastOfANameCounts(ts[..|ts| - 1], i);
    }
  }

  /** Where names are unique, as validation demands, no tunnel is lost in the map. */
  lemma {:induction false} UniqueNamesLoseNothing(ts: seq<TunnelConfig>, i: nat)
    requires DistinctKeys(NameOf, ts) && i < |ts|
    ensures ts[i].name in ToMap(ts) && ToMap(ts)[ts[i].name] == ts[i]
  {
    var init, last := ts[..|ts| - 1], ts[|ts| - 1];
    if i < |init| {
      UniqueNamesLoseNothing(init, i);
      assert NameOf(ts[i]) != NameOf(last);
    }
  }

  predicate Keyed(m: TunnelMap) {
    forall n <- m :: m[n].name == n
  }

  predicate IsAdded(current: TunnelMap, wanted: TunnelMap, t: TunnelConfig) {
    t.name in wanted && wanted[t.name] == t && t.name !in current
  }

  predicate IsUpdated(current: TunnelMap, wanted: TunnelMap, t: TunnelConfig) {
    t.name in wanted && wanted[t.name] == t && t.name in current && current[t.name] != t
  }

  predicate IsRemoved(current: TunnelMap, wanted: TunnelMap, n: string) {
    n in current && n !in wanted
  }

  /** The difference of two maps, each part in the order of the names. */
  ghost predicate IsDiff(c: TunnelChanges, current: TunnelMap, wanted: TunnelMap) {
    && (forall t :: t in c.added <==> IsAdded(current, wanted, t))
    && (forall t :: t in c.updated <==> IsUpdated(current, wanted, t))
    && (forall n :: n in c.removed <==> IsRemoved(current, wanted, n))
    && StrictlyAscending(NameOf, c.added) && StrictlyAscending(NameOf, c.updated) && StrictlyAscending(Itself, c.removed)
  }

  /** Whatever order the maps are walked in, there is one difference. */
  lemma DiffIsDetermined(c: TunnelChanges, d: TunnelChanges, current: TunnelMap, wanted: TunnelMap)
    requires IsDiff(c, current, wanted) && IsDiff(d, current, wanted)
    ensures c == d
  {
    StrictIsCanonical(NameOf, c.added, d.added);
    StrictIsCanonical(NameOf, c.updated, d.updated);
    StrictIsCanonical(Itself, c.removed, d.removed);
  }

  /** diff_tunnels: both maps are walked in no particular order, then each part is sorted. */
  method DiffTunnels(current: seq<TunnelConfig>, wanted: seq<TunnelConfig>) returns (c: TunnelChanges)
    ensures IsDiff(c, ToMap(current), ToMap(wanted))
  {
    var oldMap, newMap := ToMap(current), ToMap(wanted);
    ToMapFacts(current);
    ToMapFacts(wanted);
    var added, removed, updated := [], [], [];
    var left := newMap.Keys;
    while left != {}
      invariant left <= newMap.Keys
      invariant forall t :: t in added <==> IsAdded(oldMap, newMap, t) && t.name !in left
      invariant forall t :: t in updated <==> IsUpdated(oldMap, newMap, t) && t.name !in left
      invariant DistinctKeys(NameOf, added) && DistinctKeys(NameOf, updated)
    {
      var name :| name in left;
      var cfg := newMap[name];
      if name !in oldMap {
        NewNameIsDistinct(added, cfg);
        added := added + [cfg];
      } else if oldMap[name] != cfg {
        NewNameIsDistinct(updated, cfg);
        updated := updated + [cfg];
      }
      left := left - {name};
    }
    var oldLeft := oldMap.Keys;
    while oldLeft != {}
      invariant oldLeft <= oldMap.Keys
      invariant forall n :: n in removed <==> IsRemoved(oldMap, newMap, n) && n !in oldLeft
      invariant DistinctKeys(Itself, removed)
    {
      var name :| name in oldLeft;
      if name !in newMap {
        assert forall i :: 0 <= i < |removed| ==> removed[i] in removed;
        removed := removed + [name];
      }
      oldLeft := oldLeft - {name};
    }
    SortIsStrict(NameOf, added);
    SortIsStrict(NameOf, updated);
    SortIsStrict(Itself, removed);
    c := TunnelChanges(SortBy(NameOf, added), SortBy(Itself, removed), SortBy(NameOf, updated));
  }

  lemma NewNameIsDistinct(ts: seq<TunnelConfig>, t: TunnelConfig)
    requires DistinctKeys(NameOf, ts) && forall u <- ts :: u.name != t.name
    ensures DistinctKeys(NameOf, ts + [t])
  {
    assert forall i :: 0 <= i < |ts| ==> ts[i] in ts;
  }

  /** Removing, then replacing and adding. */
  function Applied(c: TunnelChanges, m: TunnelMap): TunnelMap {
    (m - set n | n in c.removed) + ToMap(c.updated) + ToMap(c.added)
  }

  lemma UnchangedElsewhere(c: TunnelChanges, current: TunnelMap, wanted: TunnelMap, n: string)
    requires IsDiff(c, current, wanted) && Keyed(current) && Keyed(wanted)
    ensures n in Applied(c, current) <==> n in wanted
    ensures n in wanted ==> Applied(c, current)[n] == wanted[n]
  {
    var added, updated := ToMap(c.added), ToMap(c.updated);
    ToMapFacts(c.added);
    ToMapFacts(c.updated);
    if n in added {
      assert IsAdded(current, wanted, added[n]);
    } else if n in updated {
      assert IsUpdated(current, wanted, updated[n]);
    } else if n in wanted {
      assert !IsAdded(current, wanted, wanted[n]) && !IsUpdated(current, wanted, wanted[n]) by {
        assert wanted[n] in c.added ==> n in added;
        assert wanted[n] in c.updated ==> n in updated;
      }
    }
  }

  /** The difference turns the old tunnels into the new ones. */
  lemma DiffLeadsToTheNew(c: TunnelChanges, current: TunnelMap, wanted: TunnelMap)
    requires IsDiff(c, current, wanted) && Keyed(current) && Keyed(wanted)
    ensures Applied(c, current) == wanted
  {
    forall n ensures n in Applied(c, current) <==> n in wanted
             ensures n in wanted ==> n in Applied(c, current) && Applied(c, current)[n] == wanted[n] {
      UnchangedElsewhere(c, current, wanted, n);
    }
  }

  predicate IsEmpty(c: TunnelChanges) {
    c.added == [] && c.removed == [] && c.updated == []
  }

  lemma EmptyDiffIsEquality(c: TunnelChanges, current: TunnelMap, wanted: TunnelMap)
    requires IsDiff(c, current, wanted) && Keyed(current) && Keyed(wanted)
    ensures IsEmpty(c) <==> current == wanted
  {
    if IsEmpty(c) {
      DiffLeadsToTheNew(c, current, wanted);
      assert Applied(c, current) == current;
    } else if c.added != [] {
      assert c.added[0] in c.added;
    } else if c.updated != [] {
      assert c.updated[0] in c.updated;
    } else {
      assert c.removed[0] in c.removed;
    }
  }

  /** What a reload is about: how to connect, and the tunnels by name. */
  ghost predicate Equivalent(a: ClientConfig, b: ClientConfig) {
    a.connection == b.connection && ToMap(a.tunnels) == ToMap(b.tunnels)
  }

  /** plan_reload: nothing exactly for equivalent configurations, else the difference. */
  method PlanReload(current: ClientConfig, wanted: ClientConfig) returns (plan: ReloadPlan)
    ensures plan.Noop? <==> Equivalent(current, wanted)
    ensures plan.Noop? <==> current.connection == wanted.connection && ToMap(current.tunnels) == ToMap(wanted.tunnels)
    ensures plan.Apply? ==> IsDiff(plan.changes, ToMap(current.tunnels), ToMap(wanted.tunnels))
                            && (plan.connectionSettingsChanged <==> current.connection != wanted.connection)
  {
    if current == wanted {
      return Noop;
    }
    var changes := DiffTunnels(current.tunnels, wanted.tunnels);
    ToMapFacts(current.tunnels);
    ToMapFacts(wanted.tunnels);
    EmptyDiffIsEquality(changes, ToMap(current.tunnels), ToMap(wanted.tunnels));
    var connectionSettingsChanged := current.connection != wanted.connection;
    if IsEmpty(changes) && !connectionSettingsChanged {
      plan := Noop;
    } else {
      plan := Apply(changes, connectionSettingsChanged);
    }
  }

  function OutcomeLevel(plan: ReloadPlan): ReloadLevel {
    match plan
    case Noop => NoopLevel
    case Apply(_, true) => ReconnectControl
    case Apply(_, false) => TunnelsOnly
  }

  function EmptyOutcome(plan: ReloadPlan): ReloadOutcome {
    ReloadOutcome(OutcomeLevel(plan), [], [], [], [], plan.Apply? && plan.connectionSettingsChanged)
  }

  function OutcomeFromPlan(plan: ReloadPlan, changes: TunnelChanges): ReloadOutcome {
    EmptyOutcome(plan).(
      level := if plan.Apply? && plan.connectionSettingsChanged then ReconnectControl else OutcomeLevel(plan),
      added := Names(changes.added),
      removed := changes.removed,
      updated := Names(changes.updated))
  }

  /** What a reload is said to come to, before it is done: nothing, a change of tunnels, or a new
      connection. */
  lemma OutcomeSaysThePlan(changes: TunnelChanges)
    ensures EmptyOutcome(Noop) == ReloadOutcome(NoopLevel, [], [], [], [], false)
    ensures var o := OutcomeFromPlan(Apply(changes, true), changes);
            o.level == ReconnectControl && o.connectionSettingsChanged && o.failed == []
    ensures var o := OutcomeFromPlan(Apply(changes, false), changes);
            o.level == TunnelsOnly && !o.connectionSettingsChanged && o.failed == []
    ensures OutcomeLevel(Noop) == NoopLevel && OutcomeLevel(Apply(changes, true)) == ReconnectControl
            && OutcomeLevel(Apply(changes, false)) == TunnelsOnly
  {
  }

  function At(m: TunnelMap, n: string): TunnelMap {
    if n in m then map[n := m[n]] else map[]
  }

  /** A planned outcome names every tunnel that differs, in one of its lists and in no two. */
  lemma OutcomeNamesTheDiff(plan: ReloadPlan, current: TunnelMap, wanted: TunnelMap, n: string)
    requires plan.Apply? && IsDiff(plan.changes, current, wanted) && Keyed(current) && Keyed(wanted)
    ensures var o := OutcomeFromPlan(plan, plan.changes);
            && (At(current, n) != At(wanted, n) <==> n in o.added || n in o.removed || n in o.updated)
            && !(n in o.added && n in o.removed) && !(n in o.added && n in o.updated) && !(n in o.removed && n in o.updated)
            && o.failed == []
  {
    var c := plan.changes;
    NamedIn(c.added, n);
    NamedIn(c.updated, n);
    if n in wanted {
      assert IsAdded(current, wanted, wanted[n]) <==> wanted[n] in c.added;
      assert IsUpdated(current, wanted, wanted[n]) <==> wanted[n] in c.updated;
    }
    assert n in current && n in wanted && current[n] != wanted[n] ==> At(current, n)[n] != At(wanted, n)[n];
  }

  lemma NamedIn(ts: seq<TunnelConfig>, n: string)
    ensures n in Names(ts) <==> exists t :: t in ts && t.name == n
  {
    if n in Names(ts) {
      var i :| 0 <= i < |Names(ts)| && Names(ts)[i] == n;
      assert ts[i] in ts && ts[i].name == n;
    }
    if t :| t in ts && t.name == n {
      var i :| 0 <= i < |ts| && ts[i] == t;
      assert Names(ts)[i] == n;
    }
  }
}
