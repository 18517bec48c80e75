/** Registration of an HTTP tunnel's routes (tunnel/http.rs): domains times locations, all or
    nothing, while other tunnels register and unregister their own routes in between. */
module HttpTunnel {
  import opened Wrappers
  import opened HttpGw

  /** The routes a tunnel asks for. */
  function Product(tunnel: string, domains: seq<string>, locations: seq<string>, options: RouteOptions): set<(string, Route)> {
    set d <- domains, l <- locations :: (d, Route(tunnel, l, options))
  }

  lemma InProduct(tunnel: string, domains: seq<string>, locations: seq<string>, options: RouteOptions, e: (string, Route))
    ensures e in Product(tunnel, domains, locations, options) <==>
            e.0 in domains && e.1.location in locations && e.1 == Route(tunnel, e.1.location, options)
  {
    if e.0 in domains && e.1.location in locations && e.1 == Route(tunnel, e.1.location, options) {
      assert e == (e.0, Route(tunnel, e.1.location, options));
    }
  }

  /** No domain is empty and no wanted location belongs to another tunnel. */
  ghost predicate Available(v: set<(string, Route)>, wanted: set<(string, Route)>) {
    forall e <- wanted :: Free(v, e.0, e.1)
  }

  // ---------- one tunnel's operations and the others' routes ----------

  lemma UnregisterTouchesOwn(v: set<(string, Route)>, tunnel: string, other: string)
    requires other != tunnel
    ensures Only(Without(v, tunnel), other) == Only(v, other)
    ensures Only(Without(v, tunnel), tunnel) == {}
  {
  }

  lemma RegisterTouchesOwn(v: set<(string, Route)>, key: string, route: Route, other: string)
    requires Free(v, key, route)
    ensures other != route.tunnel ==> Only(WithRoute(v, key, route), other) == Only(v, other)
    ensures Without(WithRoute(v, key, route), route.tunnel) == Without(v, route.tunnel)
  {
  }

  /** A tunnel's own view after it registers one more of its wanted routes. */
  lemma RegisterAddsOne(v: set<(string, Route)>, key: string, route: Route, have: set<(string, Route)>)
    requires Free(v, key, route) && Only(v, route.tunnel) == have
    requires forall e <- have :: e.1 == Route(route.tunnel, e.1.location, route.options)
    ensures Only(WithRoute(v, key, route), route.tunnel) == have + {(key, route)}
  {
    forall e
      ensures e in Only(WithRoute(v, key, route), route.tunnel) <==> e in have + {(key, route)}
    {
      assert e in have <==> e in Only(v, route.tunnel);
    }
  }

  function DoOps(v: set<(string, Route)>, ops: seq<GwOp>): set<(string, Route)> {
    if ops == [] then v else DoOp(DoOps(v, ops[..|ops| - 1]), ops[|ops| - 1])
  }

  lemma OneMoreOp(v: set<(string, Route)>, ops: seq<GwOp>, op: GwOp)
    ensures DoOps(v, ops + [op]) == DoOp(DoOps(v, ops), op)
  {
    assert (ops + [op])[..|ops|] == ops;
  }

  lemma OpLeavesOthers(v: set<(string, Route)>, op: GwOp, tunnel: string)
    requires OpTunnel(op) != tunnel
    ensures Only(DoOp(v, op), tunnel) == Only(v, tunnel)
  {
    match op
    case Put(key, route) =>
      if Free(v, key, route) {
        RegisterTouchesOwn(v, key, route, tunnel);
      }
    case Clear(other) => UnregisterTouchesOwn(v, other, tunnel);
  }

  /** Whatever other tunnels do, in any order, a tunnel's routes stay. */
  lemma {:induction false} OthersLeaveOwnRoutes(v: set<(string, Route)>, ops: seq<GwOp>, tunnel: string)
    requires forall op <- ops :: OpTunnel(op) != tunnel
    ensures Only(DoOps(v, ops), tunnel) == Only(v, tunnel)
  {
    if ops != [] {
      OthersLeaveOwnRoutes(v, ops[..|ops| - 1], tunnel);
      OpLeavesOthers(DoOps(v, ops[..|ops| - 1]), ops[|ops| - 1], tunnel);
    }
  }

  // ---------- the tunnel ----------

  class Tunnel {
    const name: string
    const gw: Gateway
    var closed: bool

    constructor (name: string, gw: Gateway)
      ensures this.name == name && this.gw == gw && !closed
    {
      this.name, this.gw, closed := name, gw, false;
    }

    /** close and drop: the first takes the routes away, any later one touches nothing, so it
        cannot hurt a successor that registered under the same name in between. */
    method Shutdown()
      requires Sound(gw.routes)
      modifies this, gw
      ensures Sound(gw.routes) && closed
      ensures View(gw.routes) == if old(closed) then View(old(gw.routes)) else Without(View(old(gw.routes)), name)
      ensures gw.log == old(gw.log) + if old(closed) then [] else [Clear(name)]
    {
      if !closed {
        closed := true;
        gw.UnregisterTunnel(name);
      }
    }
  }

  /** Other tunnels take the gateway's lock up to `rounds` times, for any operations. */
  method Interfere(gw: Gateway, name: string, rounds: nat) returns (ghost ops: seq<GwOp>)
    requires Sound(gw.routes)
    modifies gw
    ensures Sound(gw.routes) && gw.log == old(gw.log) + ops && View(gw.routes) == DoOps(View(old(gw.routes)), ops)
    ensures forall op <- ops :: OpTunnel(op) != name
    ensures rounds == 0 ==> ops == []
  {
    ops := [];
    ghost var v := View(gw.routes);
    for i := 0 to rounds
      invariant Sound(gw.routes) && gw.log == old(gw.log) + ops && View(gw.routes) == DoOps(v, ops)
      invariant forall op <- ops :: OpTunnel(op) != name
      invariant i == 0 ==> ops == []
    {
      var op: GwOp := *;
      if OpTunnel(op) != name {
        OneMoreOp(v, ops, op);
        match op {
          case Put(key, route) => var _ := gw.Register(key, route);
          case Clear(other) => gw.UnregisterTunnel(other);
        }
        ops := ops + [op];
      }
    }
  }

  /** A registration at the gateway, with the routes there when it took the lock. */
  datatype Try = Try(view: set<(string, Route)>, key: string, route: Route)

  ghost predicate IsFree(t: Try) {
    Free(t.view, t.key, t.route)
  }

  /** The registrations of one tunnel among some lock sections, the first of which found `v`. */
  function Tries(v: set<(string, Route)>, ops: seq<GwOp>, name: string): seq<Try> {
    if ops == [] then []
    else
      var before, op := Tries(v, ops[..|ops| - 1], name), ops[|ops| - 1];
      if op.Put? && op.route.tunnel == name
      then before + [Try(DoOps(v, ops[..|ops| - 1]), op.key, op.route)]
      else before
  }

  lemma OneMoreSection(v: set<(string, Route)>, ops: seq<GwOp>, op: GwOp, name: string)
    ensures DoOps(v, ops + [op]) == DoOp(DoOps(v, ops), op)
    ensures Tries(v, ops + [op], name)
         == Tries(v, ops, name)
            + if op.Put? && op.route.tunnel == name then [Try(DoOps(v, ops), op.key, op.route)] else []
  {
    OneMoreOp(v, ops, op);
    assert (ops + [op])[..|ops|] == ops;
  }

  lemma {:induction false} TheirSections(v: set<(string, Route)>, ops: seq<GwOp>, theirs: seq<GwOp>, name: string)
    requires forall op <- theirs :: OpTunnel(op) != name
    ensures DoOps(v, ops + theirs) == DoOps(DoOps(v, ops), theirs)
    ensures Only(DoOps(v, ops + theirs), name) == Only(DoOps(v, ops), name)
    ensures Tries(v, ops + theirs, name) == Tries(v, ops, name)
    decreases |theirs|
  {
    if theirs == [] {
      assert ops + theirs == ops;
    } else {
      var init, op := theirs[..|theirs| - 1], theirs[|theirs| - 1];
      assert init + [op] == theirs && ops + theirs == (ops + init) + [op] && op in theirs;
      TheirSections(v, ops, init, name);
      OneMoreSection(v, ops + init, op, name);
      OneMoreOp(DoOps(v, ops), init, op);
      OpLeavesOthers(DoOps(v, ops + init), op, name);
    }
  }

  function Pairs(tries: seq<Try>): (pairs: seq<(string, Route)>)
    ensures |pairs| == |tries| && forall i :: 0 <= i < |tries| ==> pairs[i] == (tries[i].key, tries[i].route)
  {
    seq(|tries|, i requires 0 <= i < |tries| => (tries[i].key, tries[i].route))
  }

  function Row(name: string, domain: string, locations: seq<string>, options: RouteOptions): (row: seq<(string, Route)>)
    ensures |row| == |locations| && forall j :: 0 <= j < |locations| ==> row[j] == (domain, Route(name, locations[j], options))
  {
    seq(|locations|, j requires 0 <= j < |locations| => (domain, Route(name, locations[j], options)))
  }

  /** The routes asked for, in the order of the two loops. */
  function Asked(name: string, domains: seq<string>, locations: seq<string>, options: RouteOptions): seq<(string, Route)> {
    if domains == [] then []
    else Asked(name, domains[..|domains| - 1], locations, options) + Row(name, domains[|domains| - 1], locations, options)
  }

  lemma {:induction false} AskedSoFar(name: string, domains: seq<string>, i: nat, locations: seq<string>, j: nat, options: RouteOptions)
    requires i < |domains| && j <= |locations|
    ensures Asked(name, domains[..i], locations, options) + Row(name, domains[i], locations[..j], options)
         <= Asked(name, domains, locations, options)
    ensures j == |locations| ==>
              Asked(name, domains[..i + 1], locations, options)
              == Asked(name, domains[..i], locations, options) + Row(name, domains[i], locations[..j], options)
    decreases |domains|
  {
    var n := |domains| - 1;
    assert Row(name, domains[i], locations[..j], options) == Row(name, domains[i], locations, options)[..j];
    assert domains[..i + 1][..i] == domains[..i];
    if i < n {
      AskedSoFar(name, domains[..n], i, locations, j, options);
      assert domains[..n][..i] == domains[..i];
    } else {
      assert domains[..n + 1] == domains;
    }
  }

  /** Domain by domain, each with every location in order. */
  lemma {:induction false} AskedAt(name: string, domains: seq<string>, locations: seq<string>, options: RouteOptions, i: nat, j: nat)
    requires i < |domains| && j < |locations|
    ensures |Asked(name, domains, locations, options)| == |domains| * |locations|
    ensures i * |locations| + j < |Asked(name, domains, locations, options)|
    ensures Asked(name, domains, locations, options)[i * |locations| + j] == (domains[i], Route(name, locations[j], options))
    decreases |domains|
  {
    var n := |domains| - 1;
    var init := Asked(name, domains[..n], locations, options);
    AskedLength(name, domains[..n], locations, options);
    assert |domains| * |locations| == n * |locations| + |locations|;
    if i < n {
      AskedAt(name, domains[..n], locations, options, i, j);
    }
  }

  lemma {:induction false} AskedLength(name: string, domains: seq<string>, locations: seq<string>, options: RouteOptions)
    ensures |Asked(name, domains, locations, options)| == |domains| * |locations|
    decreases |domains|
  {
    if domains != [] {
      AskedLength(name, domains[..|domains| - 1], locations, options);
      assert |domains| * |locations| == (|domains| - 1) * |locations| + |locations|;
    }
  }

  lemma OneMoreTry(tries: seq<Try>, t: Try, name: string, domain: string, locations: seq<string>, j: nat, options: RouteOptions,
                   above: seq<(string, Route)>)
    requires j < |locations| && t.key == domain && t.route == Route(name, locations[j], options)
    requires Pairs(tries) == above + Row(name, domain, locations[..j], options)
    ensures Pairs(tries + [t]) == above + Row(name, domain, locations[..j + 1], options)
  {
    assert Pairs(tries + [t]) == Pairs(tries) + [(t.key, t.route)];
    assert Row(name, domain, locations[..j + 1], options) == Row(name, domain, locations[..j], options) + [(t.key, t.route)];
  }

  /** HttpTunnel::register, with other tunnels let in between any two lock sections. Afterwards
      this tunnel has exactly the routes it asked for, or none at all. Of the lock sections on the
      gateway during the call, its own registrations try the routes in order; it succeeds exactly
      when it tried all and each was free at its own moment, else the last one tried was not.
      Undisturbed, it succeeds exactly when all of them are available, and nobody else's route
      changes. */
  method Register(gw: Gateway, name: string, domains: seq<string>, locations: seq<string>, options: RouteOptions, rounds: nat)
    returns (r: Result<Tunnel, GwError>)
    requires Sound(gw.routes)
    modifies gw
    ensures Sound(gw.routes)
    ensures r.Ok? ==> fresh(r.value) && r.value.name == name && r.value.gw == gw && !r.value.closed
    ensures Only(View(gw.routes), name) == if r.Ok? then Product(name, domains, locations, options) else {}
    ensures old(gw.log) < gw.log
    ensures var ops := gw.log[|old(gw.log)|..];
            var tries := Tries(View(old(gw.routes)), ops, name);
            && View(gw.routes) == DoOps(View(old(gw.routes)), ops)
            && ops[0] == Clear(name) && (r.Err? ==> ops[|ops| - 1] == Clear(name))
            && Pairs(tries) <= Asked(name, domains, locations, options)
            && (r.Ok? <==> Pairs(tries) == Asked(name, domains, locations, options) && forall t <- tries :: IsFree(t))
            && (r.Err? ==>
                  tries != [] && !IsFree(tries[|tries| - 1]) && forall t <- tries[..|tries| - 1] :: IsFree(t))
    ensures rounds == 0 ==>
              && (r.Ok? <==> Available(Without(View(old(gw.routes)), name), Product(name, domains, locations, options)))
              && Without(View(gw.routes), name) == Without(View(old(gw.routes)), name)
  {
    hide Taken, Free, Asked, Row, Pairs, DoOps, DoOp, Tries, Product, Only, Without, WithRoute, View, Sound;
    ghost var v := View(gw.routes);
    ghost var others := Without(v, name);
    ghost var ops: seq<GwOp> := [];
    ghost var tries: seq<Try> := [];
    NothingDone(v, name);
    gw.UnregisterTunnel(name);
    ClearIsLast(v, ops, name);
    ops := ops + [Clear(name)];
    ghost var have: set<(string, Route)> := {};
    NothingLeft(v, name);
    NothingAsked(name, locations, options);
    assert domains[..0] == [];
    for i := 0 to |domains|
      invariant Sound(gw.routes) && Only(View(gw.routes), name) == have
      invariant gw.log == old(gw.log) + ops && ops != [] && ops[0] == Clear(name)
      invariant View(gw.routes) == DoOps(v, ops) && Tries(v, ops, name) == tries
      invariant have == Product(name, domains[..i], locations, options)
      invariant Pairs(tries) == Asked(name, domains[..i], locations, options) && forall t <- tries :: IsFree(t)
      invariant rounds == 0 ==> Without(View(gw.routes), name) == others && Available(others, have)
    {
      ghost var above := Pairs(tries);
      EmptyRow(name, domains[i], options);
      assert have + {} == have;
      assert locations[..0] == [] && above + [] == above;
      for j := 0 to |locations|
        invariant Sound(gw.routes) && Only(View(gw.routes), name) == have
        invariant gw.log == old(gw.log) + ops && ops != [] && ops[0] == Clear(name)
        invariant View(gw.routes) == DoOps(v, ops) && Tries(v, ops, name) == tries
        invariant have == Product(name, domains[..i], locations, options) + Product(name, [domains[i]], locations[..j], options)
        invariant Pairs(tries) == above + Row(name, domains[i], locations[..j], options) && forall t <- tries :: IsFree(t)
        invariant rounds == 0 ==> Without(View(gw.routes), name) == others && Available(others, have)
      {
        var route := Route(name, locations[j], options);
        var put;
        ghost var sections, before;
        put, sections, before := RegisterOne(gw, domains[i], route, rounds, v, ops);
        ops := ops + sections;
        if rounds == 0 {
          TakenByOthers(before, others, domains[i], route);
        }
        OneMoreTry(tries, Try(before, domains[i], route), name, domains[i], locations, j, options, above);
        AskedSoFar(name, domains, i, locations, j + 1, options);
        ghost var earlier := tries;
        tries := tries + [Try(before, domains[i], route)];
        if put.Err? {
          sections := RollBack(gw, name, rounds, v, ops);
          ops := ops + sections;
          InProduct(name, domains, locations, options, (domains[i], route));
          NothingLeft(before, name);
          assert tries[..|tries| - 1] == earlier && !IsFree(tries[|tries| - 1]);
          assert gw.log[|old(gw.log)|..] == ops;
          return Err(put.error);
        }
        OwnRoutes(name, domains[..i], locations, options);
        OwnRoutes(name, [domains[i]], locations[..j], options);
        RegisterAddsOne(before, domains[i], route, have);
        RegisterTouchesOwn(before, domains[i], route, name);
        have := have + {(domains[i], route)};
        ProductStep(name, domains[i], locations, j, options);
      }
      assert locations[..|locations|] == locations;
      AskedSoFar(name, domains, i, locations, |locations|, options);
      ProductRow(name, domains, i, locations, options);
    }
    assert domains[..|domains|] == domains;
    assert gw.log[|old(gw.log)|..] == ops;
    var tunnel := new Tunnel(name, gw);
    r := Ok(tunnel);
  }

  /** Others act, and then this tunnel registers a route. */
  method RegisterOne(gw: Gateway, key: string, route: Route, rounds: nat, ghost v: set<(string, Route)>, ghost ops: seq<GwOp>)
    returns (r: Result<(), GwError>, ghost sections: seq<GwOp>, ghost before: set<(string, Route)>)
    requires Sound(gw.routes) && View(gw.routes) == DoOps(v, ops)
    modifies gw
    ensures Sound(gw.routes) && gw.log == old(gw.log) + sections && View(gw.routes) == DoOps(v, ops + sections)
    ensures Tries(v, ops + sections, route.tunnel) == Tries(v, ops, route.tunnel) + [Try(before, key, route)]
    ensures Only(before, route.tunnel) == Only(View(old(gw.routes)), route.tunnel)
    ensures rounds == 0 ==> before == View(old(gw.routes))
    ensures r.Ok? <==> Free(before, key, route)
    ensures View(gw.routes) == if r.Ok? then WithRoute(before, key, route) else before
  {
    hide DoOp, Tries, Taken;
    ghost var theirs := Interfere(gw, route.tunnel, rounds);
    TheirSections(v, ops, theirs, route.tunnel);
    before := View(gw.routes);
    r := gw.Register(key, route);
    PutIsTried(v, ops + theirs, key, route);
    sections := theirs + [Put(key, route)];
    assert ops + sections == ops + theirs + [Put(key, route)];
  }

  /** Others act, and then this tunnel takes its routes away. */
  method RollBack(gw: Gateway, name: string, rounds: nat, ghost v: set<(string, Route)>, ghost ops: seq<GwOp>)
    returns (ghost sections: seq<GwOp>)
    requires Sound(gw.routes) && View(gw.routes) == DoOps(v, ops)
    modifies gw
    ensures Sound(gw.routes) && gw.log == old(gw.log) + sections && View(gw.routes) == DoOps(v, ops + sections)
    ensures sections != [] && sections[|sections| - 1] == Clear(name)
    ensures Tries(v, ops + sections, name) == Tries(v, ops, name) && Only(View(gw.routes), name) == {}
    ensures rounds == 0 ==> View(gw.routes) == Without(View(old(gw.routes)), name)
  {
    hide DoOp, Tries;
    ghost var theirs := Interfere(gw, name, rounds);
    TheirSections(v, ops, theirs, name);
    gw.UnregisterTunnel(name);
    ClearIsLast(v, ops + theirs, name);
    sections := theirs + [Clear(name)];
    assert ops + sections == ops + theirs + [Clear(name)];
  }

  lemma NothingDone(v: set<(string, Route)>, name: string)
    ensures DoOps(v, []) == v && Tries(v, [], name) == []
  {
  }

  lemma ClearIsLast(v: set<(string, Route)>, ops: seq<GwOp>, name: string)
    ensures DoOps(v, ops + [Clear(name)]) == Without(DoOps(v, ops), name)
    ensures Tries(v, ops + [Clear(name)], name) == Tries(v, ops, name)
  {
    OneMoreSection(v, ops, Clear(name), name);
  }

  lemma PutIsTried(v: set<(string, Route)>, ops: seq<GwOp>, key: string, route: Route)
    ensures var before := DoOps(v, ops);
            && DoOps(v, ops + [Put(key, route)]) == (if Free(before, key, route) then WithRoute(before, key, route) else before)
            && Tries(v, ops + [Put(key, route)], route.tunnel) == Tries(v, ops, route.tunnel) + [Try(before, key, route)]
  {
    OneMoreSection(v, ops, Put(key, route), route.tunnel);
  }

  lemma NothingAsked(name: string, locations: seq<string>, options: RouteOptions)
    ensures Asked(name, [], locations, options) == [] && Pairs([]) == [] && Product(name, [], locations, options) == {}
  {
  }

  lemma EmptyRow(name: string, domain: string, options: RouteOptions)
    ensures Row(name, domain, [], options) == [] && Product(name, [domain], [], options) == {}
  {
  }

  lemma OwnRoutes(tunnel: string, domains: seq<string>, locations: seq<string>, options: RouteOptions)
    ensures forall e <- Product(tunnel, domains, locations, options) :: e.1 == Route(tunnel, e.1.location, options)
  {
  }

  lemma NothingLeft(v: set<(string, Route)>, name: string)
    ensures Only(Without(v, name), name) == {} && Without(Without(v, name), name) == Without(v, name)
  {
  }

  lemma TakenByOthers(v: set<(string, Route)>, others: set<(string, Route)>, key: string, route: Route)
    requires Without(v, route.tunnel) == others
    ensures Free(v, key, route) <==> Free(others, key, route)
  {
    if Taken(v, key, route) {
      var e :| e in v && e.0 == key && e.1.location == route.location && e.1.tunnel != route.tunnel;
      assert e in others;
    }
  }

  lemma ProductStep(name: string, domain: string, locations: seq<string>, j: nat, options: RouteOptions)
    requires j < |locations|
    ensures Product(name, [domain], locations[..j + 1], options)
         == Product(name, [domain], locations[..j], options) + {(domain, Route(name, locations[j], options))}
  {
    assert locations[..j + 1] == locations[..j] + [locations[j]];
    var row := Product(name, [domain], locations[..j + 1], options);
    var rest := Product(name, [domain], locations[..j], options);
    forall e
      ensures e in row <==> e in rest + {(domain, Route(name, locations[j], options))}
    {
      InProduct(name, [domain], locations[..j + 1], options, e);
      InProduct(name, [domain], locations[..j], options, e);
    }
  }

  lemma ProductRow(name: string, domains: seq<string>, i: nat, locations: seq<string>, options: RouteOptions)
    requires i < |domains|
    ensures Product(name, domains[..i + 1], locations, options)
         == Product(name, domains[..i], locations, options) + Product(name, [domains[i]], locations, options)
  {
    assert domains[..i + 1] == domains[..i] + [domains[i]];
    var all := Product(name, domains[..i + 1], locations, options);
    var above := Product(name, domains[..i], locations, options);
    var row := Product(name, [domains[i]], locations, options);
    forall e
      ensures e in all <==> e in above + row
    {
      InProduct(name, domains[..i + 1], locations, options, e);
      InProduct(name, domains[..i], locations, options, e);
      InProduct(name, [domains[i]], locations, options, e);
    }
  }
}
