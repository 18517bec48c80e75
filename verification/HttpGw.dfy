/** The HTTP gateway's routing table (tunnel/gw.rs). Hosts are taken as already normalised. A
    table keeps, for each host, the routes in descending order of their locations; the first
    location that is a prefix of the path wins. */
module HttpGw {
  import opened Wrappers
  import opened Lex

  datatype RouteOptions = RouteOptions(control: nat, hostHeaderRewrite: string, basicAuthUser: string, basicAuthPassword: string)

  datatype Route = Route(tunnel: string, location: string, options: RouteOptions)

  datatype GwError = EmptyDomain | Conflict(domain: string, location: string)

  type Table = map<string, seq<Route>>

  // ---------- what a table means ----------

  /** All routes of a table with their hosts. */
  function View(t: Table): set<(string, Route)> {
    set key <- t, r <- t[key] :: (key, r)
  }

  predicate Descending(list: seq<Route>) {
    forall i, j :: 0 <= i < j < |list| ==> Less(list[j].location, list[i].location)
  }

  /** Lists are sorted with no location twice, and no list is empty. */
  predicate Sound(t: Table) {
    forall key <- t :: t[key] != [] && Descending(t[key])
  }

  /** Another tunnel has this location on this host. */
  predicate Taken(v: set<(string, Route)>, key: string, route: Route) {
    exists e <- v :: e.0 == key && e.1.location == route.location && e.1.tunnel != route.tunnel
  }

  function Without(v: set<(string, Route)>, tunnel: string): set<(string, Route)> {
    set e <- v | e.1.tunnel != tunnel
  }

  function Only(v: set<(string, Route)>, tunnel: string): set<(string, Route)> {
    set e <- v | e.1.tunnel == tunnel
  }

  function WithRoute(v: set<(string, Route)>, key: string, route: Route): set<(string, Route)> {
    (set e <- v | !(e.0 == key && e.1.location == route.location)) + {(key, route)}
  }

  /** One lock section of some tunnel on the gateway. */
  datatype GwOp = Put(key: string, route: Route) | Clear(tunnel: string)

  function OpTunnel(op: GwOp): string {
    match op
    case Put(_, route) => route.tunnel
    case Clear(tunnel) => tunnel
  }

  predicate Free(v: set<(string, Route)>, key: string, route: Route) {
    key != "" && !Taken(v, key, route)
  }

  function DoOp(v: set<(string, Route)>, op: GwOp): set<(string, Route)> {
    match op
    case Put(key, route) => if Free(v, key, route) then WithRoute(v, key, route) else v
    case Clear(tunnel) => Without(v, tunnel)
  }

  /** `best` is the route with the longest location that is a prefix of the path. */
  ghost predicate LongestMatch(v: set<(string, Route)>, host: string, path: string, best: Route) {
    && (host, best) in v && best.location <= path
    && forall e <- v :: e.0 == host && e.1.location <= path ==>
         e.1 == best || |e.1.location| < |best.location|
  }

  // ---------- lists ----------

  function Retain(list: seq<Route>, keep: Route -> bool): (kept: seq<Route>)
    ensures forall r :: r in kept <==> r in list && keep(r)
    ensures Descending(list) ==> Descending(kept)
  {
    if list == [] then []
    else
      var rest := Retain(list[1..], keep);
      if keep(list[0]) then
        assert Descending(list) ==> Descending(list[1..]) && forall r <- rest :: Less(r.location, list[0].location) by {
          if Descending(list) {
            forall r <- rest
              ensures Less(r.location, list[0].location)
            {
              assert r in list[1..];
            }
          }
        }
        [list[0]] + rest
      else rest
  }

  /** Insertion into a list sorted by descending location. */
  function InsertDesc(list: seq<Route>, route: Route): seq<Route> {
    if list == [] || Less(list[0].location, route.location) then [route] + list
    else [list[0]] + InsertDesc(list[1..], route)
  }

  /** sort_by with the comparison of locations reversed. */
  function SortDesc(list: seq<Route>): seq<Route> {
    if list == [] then [] else InsertDesc(SortDesc(list[..|list| - 1]), list[|list| - 1])
  }

  lemma {:induction false} InsertDescKeeps(list: seq<Route>, route: Route)
    requires Descending(list) && forall r <- list :: r.location != route.location
    ensures Descending(InsertDesc(list, route))
    ensures forall r :: r in InsertDesc(list, route) <==> r in list || r == route
  {
    if list == [] {
    } else if Less(list[0].location, route.location) {
      forall i | 0 <= i < |list|
        ensures Less(list[i].location, route.location)
      {
        if i > 0 {
          LessIsTransitive(list[i].location, list[0].location, route.location);
        }
      }
    } else {
      LessIsTotal(list[0].location, route.location);
      InsertDescKeeps(list[1..], route);
      forall r <- InsertDesc(list[1..], route)
        ensures Less(r.location, list[0].location)
      {
        assert r in list[1..] || r == route;
      }
    }
  }

  lemma {:induction false} SortDescIsIdentityOnSorted(list: seq<Route>)
    requires Descending(list)
    ensures SortDesc(list) == list
  {
    if list != [] {
      var init := list[..|list| - 1];
      SortDescIsIdentityOnSorted(init);
      InsertLeastIsAppend(init, list[|list| - 1]);
    }
  }

  lemma {:induction false} InsertLeastIsAppend(list: seq<Route>, route: Route)
    requires forall r <- list :: Less(route.location, r.location)
    ensures InsertDesc(list, route) == list + [route]
  {
    if list != [] {
      LessIsAsymmetric(route.location, list[0].location);
      InsertLeastIsAppend(list[1..], route);
    }
  }

  /** Pushing a new location and sorting keeps the list sorted and adds just that route. */
  lemma PushAndSort(list: seq<Route>, route: Route)
    requires Descending(list) && forall r <- list :: r.location != route.location
    ensures Descending(SortDesc(list + [route]))
    ensures forall r :: r in SortDesc(list + [route]) <==> r in list || r == route
    ensures SortDesc(list + [route]) != []
  {
    assert (list + [route])[..|list|] == list;
    SortDescIsIdentityOnSorted(list);
    InsertDescKeeps(list, route);
    assert route in SortDesc(list + [route]);
  }

  lemma LocationsAreUnique(list: seq<Route>, i: nat, j: nat)
    requires Descending(list) && i < |list| && j < |list| && list[i].location == list[j].location
    ensures i == j
  {
    LessIsIrreflexive(list[i].location);
  }

  // ---------- the gateway ----------

  class Gateway {
    var routes: Table
    ghost var log: seq<GwOp>  // the lock sections so far

    constructor ()
      ensures routes == map[] && log == []
    {
      routes := map[];
      log := [];
    }

    /** A conflict leaves everything as it was; otherwise exactly this route is put in, in place
        of the tunnel's own older route at that location. */
    method Register(key: string, route: Route) returns (r: Result<(), GwError>)
      requires Sound(routes)
      modifies this
      ensures Sound(routes)
      ensures r.Ok? <==> Free(View(old(routes)), key, route)
      ensures r.Ok? ==> View(routes) == WithRoute(View(old(routes)), key, route)
      ensures r.Err? ==> routes == old(routes) && r.error == if key == "" then EmptyDomain else Conflict(key, route.location)
      ensures log == old(log) + [Put(key, route)]
    {
      log := log + [Put(key, route)];
      if key == "" {
        return Err(EmptyDomain);
      }
      var list := if key in routes then routes[key] else [];
      ghost var before := list;
      var i := 0;
      while i < |list| && list[i].location != route.location
        invariant 0 <= i <= |list|
        invariant forall j :: 0 <= j < i ==> list[j].location != route.location
      {
        i := i + 1;
      }
      if i < |list| {
        if list[i].tunnel != route.tunnel {
          assert (key, list[i]) in View(routes);
          return Err(Conflict(key, route.location));
        }
        list := Retain(list, (r: Route) => r.location != route.location);
        SameLocationIsThis(before, i);
      }
      assert forall r :: r in list <==> r in before && r.location != route.location;
      PushAndSort(list, route);
      NotTaken(routes, key, route);
      routes := routes[key := SortDesc(list + [route])];
      ViewAfterPut(old(routes), key, route, list, routes);
      r := Ok(());
    }

    method UnregisterTunnel(tunnel: string)
      requires Sound(routes)
      modifies this
      ensures Sound(routes) && View(routes) == Without(View(old(routes)), tunnel)
      ensures log == old(log) + [Clear(tunnel)]
    {
      log := log + [Clear(tunnel)];
      var keep := (r: Route) => r.tunnel != tunnel;
      routes := map key <- routes | Retain(routes[key], keep) != [] :: Retain(routes[key], keep);
      forall e
        ensures e in View(routes) <==> e in Without(View(old(routes)), tunnel)
      {
        if e in Without(View(old(routes)), tunnel) {
          assert e.1 in Retain(old(routes)[e.0], keep);
        }
      }
    }

    /** The first hit in the sorted list is the unique longest match among all routes. */
    method Lookup(host: string, path: string) returns (r: Option<Route>)
      requires Sound(routes)
      ensures r.Some? ==> LongestMatch(View(routes), host, path, r.value)
      ensures r.None? ==> forall e <- View(routes) :: e.0 == host ==> !(e.1.location <= path)
    {
      if host !in routes {
        return None;
      }
      var list := routes[host];
      var i := 0;
      while i < |list|
        invariant 0 <= i <= |list|
        invariant forall j :: 0 <= j < i ==> !(list[j].location <= path)
      {
        if list[i].location <= path {
          FirstHitIsLongest(routes, host, path, i);
          return Some(list[i]);
        }
        i := i + 1;
      }
      r := None;
    }
  }

  lemma SameLocationIsThis(list: seq<Route>, i: nat)
    requires Descending(list) && i < |list|
    ensures forall r <- list :: r.location == list[i].location ==> r == list[i]
  {
    forall j | 0 <= j < |list| && list[j].location == list[i].location
      ensures list[j] == list[i]
    {
      LocationsAreUnique(list, i, j);
    }
  }

  lemma NotTaken(t: Table, key: string, route: Route)
    requires forall r <- (if key in t then t[key] else []) :: r.location == route.location ==> r.tunnel == route.tunnel
    ensures !Taken(View(t), key, route)
  {
  }

  lemma ViewAfterPut(t: Table, key: string, route: Route, list: seq<Route>, t': Table)
    requires forall r :: r in list <==> r in (if key in t then t[key] else []) && r.location != route.location
    requires key in t' && t' == t[key := t'[key]] && forall r :: r in t'[key] <==> r in list || r == route
    ensures View(t') == WithRoute(View(t), key, route)
  {
    forall e
      ensures e in View(t') <==> e in WithRoute(View(t), key, route)
    {
      if e.0 == key {
        assert e in View(t') <==> e.1 in t'[key];
        assert e in View(t) <==> key in t && e.1 in t[key];
      }
    }
  }

  /** Of two prefixes of one path, the lexicographically greater is the longer. */
  lemma LongerIsGreater(a: string, b: string, path: string)
    requires a <= path && b <= path && Less(a, b)
    ensures |a| < |b|
  {
    if |b| <= |a| {
      assert b <= a;
      if a == b {
        LessIsIrreflexive(a);
      } else {
        PrefixIsLess(b, a);
        LessIsAsymmetric(a, b);
      }
    }
  }

  lemma FirstHitIsLongest(t: Table, host: string, path: string, i: nat)
    requires Sound(t) && host in t && i < |t[host]| && t[host][i].location <= path
    requires forall j :: 0 <= j < i ==> !(t[host][j].location <= path)
    ensures LongestMatch(View(t), host, path, t[host][i])
  {
    var list := t[host];
    forall e <- View(t) | e.0 == host && e.1.location <= path
      ensures e.1 == list[i] || |e.1.location| < |list[i].location|
    {
      var j :| 0 <= j < |list| && list[j] == e.1;
      if j > i {
        LongerIsGreater(list[j].location, list[i].location, path);
      }
    }
  }

  lemma LongestMatchIsUnique(v: set<(string, Route)>, host: string, path: string, a: Route, b: Route)
    requires LongestMatch(v, host, path, a) && LongestMatch(v, host, path, b)
    ensures a == b
  {
  }

  // ---------- the table is determined by its routes ----------

  lemma {:induction false} DescendingIsCanonical(a: seq<Route>, b: seq<Route>)
    requires Descending(a) && Descending(b) && forall r :: r in a <==> r in b
    ensures a == b
  {
    assert b != [] ==> b[0] in b;
    if a != [] {
      assert a[0] in b;
      var i :| 0 <= i < |b| && b[i] == a[0];
      var j :| 0 <= j < |a| && a[j] == b[0];
      if i > 0 && j > 0 {
        LessIsAsymmetric(b[i].location, b[0].location);
      }
      assert a[0] == b[0];
      forall r
        ensures r in a[1..] <==> r in b[1..]
      {
        TailWithoutHead(a, r);
        TailWithoutHead(b, r);
      }
      DescendingIsCanonical(a[1..], b[1..]);
    }
  }

  lemma TailWithoutHead(a: seq<Route>, r: Route)
    requires a != [] && Descending(a)
    ensures r in a[1..] <==> r in a && r != a[0]
  {
    LessIsIrreflexive(a[0].location);
    assert a == [a[0]] + a[1..];
  }

  /** Two sound tables with the same routes are equal: the order of registrations leaves no
      trace, in the lists or in any lookup. */
  lemma RoutesDetermineTheTable(s: Table, t: Table)
    requires Sound(s) && Sound(t) && View(s) == View(t)
    ensures s == t
  {
    forall key
      ensures key in s <==> key in t
    {
      if key in s {
        assert (key, s[key][0]) in View(t);
      }
      if key in t {
        assert (key, t[key][0]) in View(s);
      }
    }
    forall key <- s
      ensures s[key] == t[key]
    {
      forall r
        ensures r in s[key] <==> r in t[key]
      {
        assert r in s[key] <==> (key, r) in View(s);
        assert r in t[key] <==> (key, r) in View(t);
      }
      DescendingIsCanonical(s[key], t[key]);
    }
  }

  // ---------- the same in terms of the lists ----------

  /** A route is free on a host that has a name, if no other tunnel's route there has its location. */
  lemma FreeMeans(t: Table, key: string, route: Route)
    ensures Free(View(t), key, route) <==>
            key != "" && (key in t ==> forall i :: 0 <= i < |t[key]| && t[key][i].location == route.location ==>
                                         t[key][i].tunnel == route.tunnel)
  {
    if key in t {
      forall i | 0 <= i < |t[key]| ensures (key, t[key][i]) in View(t) {
      }
    }
  }

  /** A registration puts its route into the list of its host, in place of one at the same location,
      and leaves all other hosts' lists as they are. */
  lemma RegistrationMeans(t: Table, t': Table, key: string, route: Route)
    requires Sound(t) && Sound(t') && View(t') == WithRoute(View(t), key, route)
    ensures key in t' && t'.Keys == t.Keys + {key}
    ensures forall r :: r in t'[key] <==> r == route || (key in t && r in t[key] && r.location != route.location)
    ensures forall host <- t :: host != key ==> t'[host] == t[host]
  {
    assert (key, route) in View(t');
    forall host | host != key
      ensures host in t <==> host in t'
      ensures host in t ==> t'[host] == t[host]
    {
      if host in t {
        assert (host, t[host][0]) in View(t');
      }
      if host in t' {
        assert (host, t'[host][0]) in View(t');
        assert host in t;
        forall r ensures r in t[host] <==> r in t'[host] {
          assert (host, r) in View(t) <==> (host, r) in View(t');
        }
        DescendingIsCanonical(t[host], t'[host]);
      }
    }
    forall r ensures r in t'[key] <==> r == route || (key in t && r in t[key] && r.location != route.location) {
      assert (key, r) in View(t') <==> r in t'[key];
    }
  }

  /** Unregistering a tunnel leaves in the list of every host exactly the routes of the others, and no
      empty list. */
  lemma UnregistrationMeans(t: Table, t': Table, tunnel: string, host: string, r: Route)
    requires Sound(t) && Sound(t') && View(t') == Without(View(t), tunnel)
    ensures host in t' && r in t'[host] <==> host in t && r in t[host] && r.tunnel != tunnel
    ensures host in t' ==> t'[host] != []
  {
    InView(t', (host, r));
    InView(t, (host, r));
  }

  lemma InView(t: Table, e: (string, Route))
    ensures e in View(t) <==> e.0 in t && e.1 in t[e.0]
  {
  }
}
