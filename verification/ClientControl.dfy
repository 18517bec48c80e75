/** The client's side of a session (client control/session.rs, client tunnel/manager.rs): applying
    tunnel changes while the reader task handles the server's answers. */
module ClientControl {
  import opened Lex
  import opened Wrappers
  import opened Sorting
  import opened ReloadPlan

  const START_TIMEOUT_MS := 5000
  const POLL_MS := 50

  /** An answer to NewTunnel. */
  datatype Response = Response(name: string, error: Option<string>)

  /** How the outside world behaves during one reload: which configurations are refused before
      and after a message can be built from them, which writes fail, what answers come in at each
      await point, and the clock at each poll. */
  datatype World = World(
    invalid: TunnelConfig -> Option<string>,
    unbuildable: TunnelConfig -> Option<string>,
    closeFails: string -> Option<string>,
    newFails: string -> Option<string>,
    answers: nat -> seq<Response>,
    clock: nat -> nat)

  /** Sleeping takes at least as long as asked. */
  ghost predicate SleepsEnough(w: World) {
    forall k: nat :: w.clock(k + 1) >= w.clock(k) + POLL_MS
  }

  class TunnelManager {
    var byName: TunnelMap

    constructor ()
      ensures byName == map[]
    {
      byName := map[];
    }

    method Upsert(t: TunnelConfig, w: World) returns (r: Result<(), string>)
      modifies this
      ensures r.Ok? <==> w.unbuildable(t).None?
      ensures r.Err? ==> w.unbuildable(t) == Some(r.error)
      ensures byName == if r.Ok? then old(byName)[t.name := t] else old(byName)
    {
      match w.unbuildable(t) {
        case Some(e) => r := Err(e);
        case None =>
          byName := byName[t.name := t];
          r := Ok(());
      }
    }

    method Remove(name: string)
      modifies this
      ensures byName == old(byName) - {name}
    {
      byName := byName - {name};
    }

    /** from_config: all of the tunnels, or an error at the first that cannot be built. */
    static method FromConfig(ts: seq<TunnelConfig>, w: World) returns (r: Result<TunnelManager, string>)
      ensures r.Ok? <==> forall k :: 0 <= k < |ts| ==> w.unbuildable(ts[k]).None?
      ensures r.Ok? ==> fresh(r.value) && r.value.byName == ToMap(ts)
    {
      hide ToMap;
      var mgr := new TunnelManager();
      assert ts[..0] == [] && ToMap([]) == map[] by {
        ToMapOfNone();
      }
      for i := 0 to |ts|
        invariant fresh(mgr) && mgr.byName == ToMap(ts[..i])
        invariant forall k :: 0 <= k < i ==> w.unbuildable(ts[k]).None?
      {
        ToMapOfOneMore(ts, i);
        var one := mgr.Upsert(ts[i], w);
        if one.Err? {
          return Err(one.error);
        }
      }
      assert ts[..|ts|] == ts;
      return Ok(mgr);
    }
  }

  lemma ToMapOfNone()
    ensures ToMap([]) == map[]
  {
  }

  lemma ToMapOfOneMore(ts: seq<TunnelConfig>, i: nat)
    requires i < |ts|
    ensures ToMap(ts[..i + 1]) == ToMap(ts[..i])[ts[i].name := ts[i]]
  {
    assert ts[..i + 1][..i] == ts[..i];
  }

  /** Which registrations wait for an answer, and the errors that came; the ghost field keeps every
      answer since a name was last registered. */
  class RegisterWatch {
    var pending: set<string>
    var errors: map<string, string>
    ghost var since: map<string, seq<Option<string>>>

    ghost predicate Valid()
      reads this
    {
      forall n <- since ::
        && (n in pending <==> since[n] == [])
        && (n in errors <==> exists e :: e in since[n] && e.Some?)
        && (n in errors ==> Some(errors[n]) in since[n])
    }

    constructor ()
      ensures Valid() && since == map[]
    {
      pending, errors, since := {}, map[], map[];
    }

    method Begin(name: string)
      requires Valid()
      modifies this
      ensures Valid() && since == old(since)[name := []]
    {
      errors := errors - {name};
      pending := pending + {name};
      since := since[name := []];
    }

    method Finish(name: string, error: Option<string>)
      requires Valid()
      modifies this
      ensures Valid() && since == Heard(old(since), Response(name, error))
    {
      pending := pending - {name};
      if error.Some? {
        errors := errors[name := error.value];
      }
      since := Heard(since, Response(name, error));
    }

    /** The reader task at an await point of somebody else. */
    method Receive(answers: seq<Response>)
      requires Valid()
      modifies this
      ensures Valid() && since == HeardAll(old(since), answers) && since.Keys == old(since.Keys)
    {
      assert answers[..0] == [];
      for i := 0 to |answers|
        invariant Valid() && since == HeardAll(old(since), answers[..i]) && since.Keys == old(since.Keys)
      {
        assert answers[..i + 1][..i] == answers[..i];
        Finish(answers[i].name, answers[i].error);
      }
      assert answers[..|answers|] == answers;
    }

    /** Some answer came since the registration, and no error. */
    ghost predicate Confirmed(n: string)
      reads this
    {
      n in since && since[n] != [] && forall e <- since[n] :: e.None?
    }

    ghost function ConfirmedNames(): set<string>
      reads this
    {
      set n | n in since && Confirmed(n)
    }
  }

  ghost function Heard(since: map<string, seq<Option<string>>>, a: Response): map<string, seq<Option<string>>> {
    if a.name in since then since[a.name := since[a.name] + [a.error]] else since
  }

  ghost function HeardAll(since: map<string, seq<Option<string>>>, answers: seq<Response>): map<string, seq<Option<string>>> {
    if answers == [] then since else Heard(HeardAll(since, answers[..|answers| - 1]), answers[|answers| - 1])
  }

  /** All answers of a name since then, in order. */
  function AnswersFor(n: string, answers: seq<Response>): seq<Option<string>> {
    if answers == [] then []
    else
      var last := answers[|answers| - 1];
      AnswersFor(n, answers[..|answers| - 1]) + if last.name == n then [last.error] else []
  }

  /** A watched name hears exactly its own answers; others are not taken down. */
  lemma {:induction false} HeardAllMeans(since: map<string, seq<Option<string>>>, answers: seq<Response>, n: string)
    ensures HeardAll(since, answers).Keys == since.Keys
    ensures n in since ==> HeardAll(since, answers)[n] == since[n] + AnswersFor(n, answers)
  {
    if answers != [] {
      HeardAllMeans(since, answers[..|answers| - 1], n);
    }
  }

  // ---------- lists of names ----------

  ghost predicate Distinct(xs: seq<string>) {
    DistinctKeys(Itself, xs)
  }

  /** `retain(|n| n != name)`. */
  function Dropped(xs: seq<string>, name: string): (ys: seq<string>)
    ensures forall n :: n in ys <==> n in xs && n != name
    ensures Distinct(xs) ==> Distinct(ys)
  {
    if xs == [] then []
    else
      var rest := Dropped(xs[1..], name);
      assert forall i :: 0 <= i < |rest| ==> rest[i] in xs[1..] by {
        assert forall i :: 0 <= i < |rest| ==> rest[i] in rest;
      }
      if xs[0] == name then rest else [xs[0]] + rest
  }

  /** `dedup`: of equal neighbours the first stays. */
  function Dedup(xs: seq<string>): (ys: seq<string>)
    ensures forall n :: n in ys <==> n in xs
    ensures Distinct(xs) ==> ys == xs
  {
    if |xs| < 2 then xs
    else if xs[0] == xs[1] then
      assert Itself(xs[0]) == Itself(xs[1]);
      Dedup(xs[1..])
    else [xs[0]] + Dedup(xs[1..])
  }

  function FailedNames(failed: seq<(string, string)>): (names: seq<string>)
    ensures |names| == |failed| && forall i :: 0 <= i < |failed| ==> names[i] == failed[i].0
  {
    seq(|failed|, i requires 0 <= i < |failed| => failed[i].0)
  }

  lemma DistinctPush(xs: seq<string>, n: string)
    requires Distinct(xs) && n !in xs
    ensures Distinct(xs + [n])
  {
    assert forall i :: 0 <= i < |xs| ==> xs[i] in xs;
  }

  lemma NotAmongTheEarlier(xs: seq<string>, i: nat)
    requires Distinct(xs) && i < |xs|
    ensures xs[i] !in xs[..i]
  {
    assert forall j :: 0 <= j < i ==> Itself(xs[j]) != Itself(xs[i]);
  }

  lemma FailedPush(failed: seq<(string, string)>, n: string, e: string)
    ensures FailedNames(failed + [(n, e)]) == FailedNames(failed) + [n]
  {
  }

  // ---------- what a reload does ----------

  predicate Refused(t: TunnelConfig, w: World) {
    w.invalid(t).Some? || w.unbuildable(t).Some? || w.newFails(t.name).Some?
  }

  /** Names are distinct within the changes and each is of one kind. */
  ghost predicate WellFormed(c: TunnelChanges) {
    Distinct(c.removed + Names(c.updated + c.added))
  }

  ghost predicate RemovedSettled(c: TunnelChanges, w: World, after: TunnelMap, o: ReloadOutcome) {
    forall n <- c.removed ::
      if w.closeFails(n).None? then n in o.removed && n !in FailedNames(o.failed) && n !in after
      else n !in o.removed && n in FailedNames(o.failed)
  }

  ghost predicate UpdatedSettled(c: TunnelChanges, w: World, after: TunnelMap, confirmed: set<string>, o: ReloadOutcome) {
    forall t <- c.updated ::
      if w.closeFails(t.name).None? && !Refused(t, w) && t.name in confirmed then
        t.name in o.updated && t.name !in FailedNames(o.failed) && t.name in after && after[t.name] == t
      else t.name !in o.updated && t.name in FailedNames(o.failed)
  }

  ghost predicate AddedSettled(c: TunnelChanges, w: World, after: TunnelMap, confirmed: set<string>, o: ReloadOutcome) {
    forall t <- c.added ::
      if !Refused(t, w) && t.name in confirmed then
        t.name in o.added && t.name !in FailedNames(o.failed) && t.name in after && after[t.name] == t
      else t.name !in o.added && t.name in FailedNames(o.failed)
  }

  ghost predicate OthersUntouched(c: TunnelChanges, before: TunnelMap, after: TunnelMap, o: ReloadOutcome) {
    forall n :: n !in c.removed && n !in Names(c.updated + c.added) ==>
      n !in FailedNames(o.failed) && At(after, n) == At(before, n)
  }

  ghost predicate ListsAreProper(c: TunnelChanges, o: ReloadOutcome) {
    && (forall n <- o.removed :: n in c.removed)
    && (forall n <- o.updated :: n in Names(c.updated))
    && (forall n <- o.added :: n in Names(c.added))
    && Distinct(o.removed) && Distinct(o.updated) && Distinct(o.added) && Distinct(FailedNames(o.failed))
  }

  /** The state of the tunnel manager and the watch, and the outcome, after a reload. */
  ghost predicate Settled(c: TunnelChanges, w: World, before: TunnelMap, after: TunnelMap,
                          confirmed: set<string>, o: ReloadOutcome) {
    && RemovedSettled(c, w, after, o)
    && UpdatedSettled(c, w, after, confirmed, o)
    && AddedSettled(c, w, after, confirmed, o)
    && OthersUntouched(c, before, after, o)
    && ListsAreProper(c, o)
  }

  lemma SettledWhateverLevel(c: TunnelChanges, w: World, before: TunnelMap, after: TunnelMap,
                             confirmed: set<string>, o: ReloadOutcome, level: ReloadLevel)
    requires Settled(c, w, before, after, confirmed, o)
    ensures Settled(c, w, before, after, confirmed, o.(level := level))
  {
    hide Refused, Distinct, At;
  }

  /** A registration of `n` was sent: nothing about its closing failed, and it was not refused. */
  ghost predicate Sent(todo: seq<TunnelConfig>, n: string, unclosed: seq<string>, w: World) {
    exists t :: t in todo && t.name == n && n !in unclosed && !Refused(t, w)
  }

  ghost predicate NotSent(todo: seq<TunnelConfig>, n: string, unclosed: seq<string>, w: World) {
    exists t :: t in todo && t.name == n && n !in unclosed && Refused(t, w)
  }

  lemma AcceptedIsHeld(t: TunnelConfig, w: World)
    requires !Refused(t, w)
    ensures w.invalid(t).None? && w.unbuildable(t).None?
  {
  }

  lemma PlusUpdate(a: TunnelMap, b: TunnelMap, t: TunnelConfig)
    ensures (a + b)[t.name := t] == a + b[t.name := t]
  {
  }

  class Control {
    const tunnels: TunnelManager
    const watch: RegisterWatch

    constructor (mgr: TunnelManager)
      ensures tunnels == mgr && fresh(watch) && watch.Valid()
    {
      tunnels := mgr;
      watch := new RegisterWatch();
    }

    /** What open_session does once the login is accepted: a control whose tunnels are those of the
        configuration, each of them announced to the server; or the first error. */
    static method Open(ts: seq<TunnelConfig>, w: World) returns (r: Result<Control, string>)
      ensures r.Ok? ==> fresh(r.value) && fresh(r.value.tunnels) && fresh(r.value.watch) && r.value.watch.Valid()
      ensures r.Ok? ==> r.value.tunnels.byName == ToMap(ts)
      ensures r.Ok? <==> forall k :: 0 <= k < |ts| ==> !Refused(ts[k], w)
    {
      hide ToMap;
      var mgr := TunnelManager.FromConfig(ts, w);
      if mgr.Err? {
        return Err(mgr.error);
      }
      var control := new Control(mgr.value);
      var announced := control.RegisterAll(ts, w);
      if announced.Err? {
        return Err(announced.error);
      }
      assert ToMap(ts) + ToMap(ts) == ToMap(ts);
      r := Ok(control);
    }

    /** register_all_tunnels: all in turn, or the first error. */
    method RegisterAll(ts: seq<TunnelConfig>, w: World) returns (r: Result<(), string>)
      requires watch.Valid()
      modifies tunnels, watch
      ensures watch.Valid()
      ensures r.Ok? <==> forall k :: 0 <= k < |ts| ==> !Refused(ts[k], w)
      ensures r.Ok? ==> tunnels.byName == old(tunnels.byName) + ToMap(ts)
    {
      hide ToMap, Refused;
      ToMapOfNone();
      assert ts[..0] == [];
      for i := 0 to |ts|
        invariant watch.Valid()
        invariant tunnels.byName == old(tunnels.byName) + ToMap(ts[..i])
        invariant forall k :: 0 <= k < i ==> !Refused(ts[k], w)
      {
        ToMapOfOneMore(ts, i);
        var one := RegisterTunnel(ts[i], w, i);
        if one.Err? {
          return Err(one.error);
        }
        AcceptedIsHeld(ts[i], w);
        PlusUpdate(old(tunnels.byName), ToMap(ts[..i]), ts[i]);
      }
      assert ts[..|ts|] == ts;
      r := Ok(());
    }

    /** The message is written first; only then is the tunnel forgotten. */
    method CloseTunnel(name: string, w: World, step: nat) returns (r: Result<(), string>)
      requires watch.Valid()
      modifies tunnels, watch
      ensures watch.Valid() && watch.since.Keys == old(watch.since.Keys)
      ensures r.Ok? <==> w.closeFails(name).None?
      ensures r.Err? ==> w.closeFails(name) == Some(r.error)
      ensures watch.since == HeardAll(old(watch.since), w.answers(step))
      ensures tunnels.byName == if r.Ok? then old(tunnels.byName) - {name} else old(tunnels.byName)
    {
      watch.Receive(w.answers(step));
      match w.closeFails(name) {
        case Some(e) => return Err(e);
        case None =>
      }
      tunnels.Remove(name);
      r := Ok(());
    }

    /** The tunnel is in the manager and being watched before its message is written. */
    method RegisterTunnel(t: TunnelConfig, w: World, step: nat) returns (r: Result<(), string>)
      requires watch.Valid()
      modifies tunnels, watch
      ensures watch.Valid() && watch.since.Keys >= old(watch.since.Keys)
      ensures r.Ok? <==> !Refused(t, w)
      ensures r.Ok? ==> t.name in watch.since
      ensures r.Err? ==> Some(r.error) == if w.invalid(t).Some? then w.invalid(t)
                                          else if w.unbuildable(t).Some? then w.unbuildable(t) else w.newFails(t.name)
      ensures watch.since == if w.invalid(t).None? && w.unbuildable(t).None?
                             then HeardAll(old(watch.since)[t.name := []], w.answers(step)) else old(watch.since)
      ensures tunnels.byName
           == if w.invalid(t).None? && w.unbuildable(t).None? then old(tunnels.byName)[t.name := t] else old(tunnels.byName)
    {
      match w.invalid(t) {
        case Some(e) => return Err(e);
        case None =>
      }
      var upserted := tunnels.Upsert(t, w);
      if upserted.Err? {
        return Err(upserted.error);
      }
      watch.Begin(t.name);
      watch.Receive(w.answers(step));
      match w.newFails(t.name) {
        case Some(e) => r := Err(e);
        case None => r := Ok(());
      }
    }

    /** The errors of the watched names among `names`; those still pending have timed out. */
    method Unconfirmed(names: seq<string>) returns (errors: seq<(string, string)>)
      requires watch.Valid() && (forall n <- names :: n in watch.since) && Distinct(names)
      ensures forall n :: n in FailedNames(errors) <==> n in names && !watch.Confirmed(n)
      ensures Distinct(FailedNames(errors))
      ensures forall e <- errors :: e.0 in watch.since && ErrorFits(e.1, watch.since[e.0])
    {
      errors := [];
      for i := 0 to |names|
        invariant forall n :: n in FailedNames(errors) <==> n in names[..i] && !watch.Confirmed(n)
        invariant Distinct(FailedNames(errors))
        invariant forall e <- errors :: e.0 in watch.since && ErrorFits(e.1, watch.since[e.0])
      {
        var n := names[i];
        NotAmongTheEarlier(names, i);
        assert names[..i + 1] == names[..i] + [n];
        if n in watch.pending {
          FailedPush(errors, n, "tunnel start timed out");
          DistinctPush(FailedNames(errors), n);
          errors := errors + [(n, "tunnel start timed out")];
        } else if n in watch.errors {
          FailedPush(errors, n, watch.errors[n]);
          DistinctPush(FailedNames(errors), n);
          errors := errors + [(n, watch.errors[n])];
        }
      }
      assert names[..|names|] == names;
    }

    /** Polls until every name was answered or the time is over. */
    method CollectRegisterErrors(names: seq<string>, w: World, step: nat)
      returns (errors: seq<(string, string)>, ghost polls: nat)
      requires watch.Valid() && (forall n <- names :: n in watch.since) && Distinct(names) && SleepsEnough(w)
      modifies watch
      ensures watch.Valid()
      ensures forall n :: n in FailedNames(errors) <==> n in names && !watch.Confirmed(n)
      ensures Distinct(FailedNames(errors)) && forall e <- errors :: e.0 in watch.since && ErrorFits(e.1, watch.since[e.0])
      ensures (exists n :: n in names && n in watch.since && watch.since[n] == []) ==> w.clock(polls) >= w.clock(0) + 5000
      ensures polls <= 100 && watch.since == HeardAll(old(watch.since), AnswersFrom(w, step, polls))
      ensures (forall n <- names :: old(watch.since)[n] != []) ==> polls == 0
    {
      hide HeardAll, AnswersFrom, ErrorFits, Distinct;
      NothingHeard(watch.since, w, step);
      var deadline := w.clock(0) + START_TIMEOUT_MS;
      var k := 0;
      while true
        invariant watch.Valid() && forall n <- names :: n in watch.since
        invariant w.clock(0) + k * POLL_MS <= w.clock(k) && k <= START_TIMEOUT_MS / POLL_MS
        invariant watch.since == HeardAll(old(watch.since), AnswersFrom(w, step, k))
        invariant k > 0 ==> exists n <- names :: old(watch.since)[n] == []
        decreases START_TIMEOUT_MS / POLL_MS - k
      {
        polls := k;
        if forall n <- names :: n !in watch.pending {
          errors := Unconfirmed(names);
          return;
        }
        if w.clock(k) >= deadline {
          errors := Unconfirmed(names);
          return;
        }
        if k == 0 {
          var n :| n in names && n in watch.pending;
          assert old(watch.since)[n] == [];
        }
        watch.Receive(w.answers(step + k));
        MoreHeard(old(watch.since), w, step, k);
        k := k + 1;
      }
    }

    /** close_all_tunnels: whatever could be closed is forgotten. */
    method CloseAllTunnels(w: World, step: nat)
      requires watch.Valid()
      modifies tunnels, watch
      ensures watch.Valid()
      ensures forall n :: At(tunnels.byName, n) == if w.closeFails(n).Some? then At(old(tunnels.byName), n) else map[]
    {
      var left := tunnels.byName.Keys;
      while left != {}
        invariant watch.Valid()
        invariant forall n :: At(tunnels.byName, n)
                           == if w.closeFails(n).Some? || n in left then At(old(tunnels.byName), n) else map[]
      {
        var name :| name in left;
        var _ := CloseTunnel(name, w, step);
        left := left - {name};
      }
    }

    /** The names to close: what was removed and what was updated, sorted. */
    method StopNames(c: TunnelChanges) returns (stop: seq<string>)
      requires WellFormed(c)
      ensures Distinct(stop) && forall n :: n in stop <==> n in c.removed || n in Names(c.updated)
    {
      stop := c.removed;
      assert forall i :: 0 <= i < |c.removed| ==> (c.removed + Names(c.updated + c.added))[i] == c.removed[i];
      for i := 0 to |c.updated|
        invariant Distinct(stop) && forall n :: n in stop <==> n in c.removed || n in Names(c.updated)[..i]
      {
        var name := c.updated[i].name;
        assert Names(c.updated)[..i + 1] == Names(c.updated)[..i] + [name];
        if name !in stop {
          DistinctPush(stop, name);
          stop := stop + [name];
        }
      }
      assert Names(c.updated)[..|c.updated|] == Names(c.updated);
      SortKeepsElements(Itself, stop);
      SortKeepsKeysDistinct(Itself, stop);
      stop := Dedup(SortBy(Itself, stop));
    }

    /** The first half: closing. */
    method CloseAll(c: TunnelChanges, stop: seq<string>, w: World)
      returns (removed: seq<string>, failed: seq<(string, string)>)
      requires watch.Valid() && Distinct(stop)
      modifies tunnels, watch
      ensures watch.Valid()
      ensures Distinct(removed) && forall n :: n in removed <==> n in stop && w.closeFails(n).None? && n in c.removed
      ensures Distinct(FailedNames(failed)) && forall n :: n in FailedNames(failed) <==> n in stop && w.closeFails(n).Some?
      ensures tunnels.byName == old(tunnels.byName) - set n | n in stop && w.closeFails(n).None?
    {
      removed, failed := [], [];
      for i := 0 to |stop|
        invariant watch.Valid()
        invariant Distinct(removed) && forall n :: n in removed <==> n in stop[..i] && w.closeFails(n).None? && n in c.removed
        invariant Distinct(FailedNames(failed))
        invariant forall n :: n in FailedNames(failed) <==> n in stop[..i] && w.closeFails(n).Some?
        invariant tunnels.byName == old(tunnels.byName) - set n | n in stop[..i] && w.closeFails(n).None?
      {
        var name := stop[i];
        NotAmongTheEarlier(stop, i);
        assert stop[..i + 1] == stop[..i] + [name];
        var closed := CloseTunnel(name, w, i);
        match closed {
          case Ok(_) =>
            if name in c.removed {
              DistinctPush(removed, name);
              removed := removed + [name];
            }
          case Err(e) =>
            FailedPush(failed, name, e);
            DistinctPush(FailedNames(failed), name);
            failed := failed + [(name, e)];
        }
      }
      assert stop[..|stop|] == stop;
    }

    /** The second half: registering, first what was updated, then what was added. */
    method StartAll(c: TunnelChanges, todo: seq<TunnelConfig>, unclosed: seq<(string, string)>, w: World, step: nat)
      returns (started: seq<string>, added: seq<string>, updated: seq<string>, failed: seq<(string, string)>)
      requires watch.Valid() && DistinctKeys(NameOf, todo) && Distinct(FailedNames(unclosed))
      modifies tunnels, watch
      ensures watch.Valid() && forall n <- started :: n in watch.since
      ensures Distinct(started) && forall n :: n in started <==> Sent(todo, n, FailedNames(unclosed), w)
      ensures Distinct(added) && forall n :: n in added <==> n in started && n in Names(c.added)
      ensures Distinct(updated) && forall n :: n in updated <==> n in started && n !in Names(c.added)
      ensures Distinct(FailedNames(failed))
      ensures forall n :: n in FailedNames(failed) <==> n in FailedNames(unclosed) || NotSent(todo, n, FailedNames(unclosed), w)
      ensures forall n :: n !in Names(todo) ==> At(tunnels.byName, n) == At(old(tunnels.byName), n)
      ensures forall t <- todo :: t.name in started ==> t.name in tunnels.byName && tunnels.byName[t.name] == t
    {
      hide Refused, Sent, NotSent, DistinctKeys, Distinct;
      started, added, updated, failed := [], [], [], unclosed;
      NothingIsDistinct();
      NothingSent(FailedNames(unclosed), w);
      assert todo[..0] == [];
      ghost var skipped := FailedNames(unclosed);
      for i := 0 to |todo|
        invariant watch.Valid() && forall n <- started :: n in watch.since
        invariant Distinct(started) && forall n :: n in started <==> Sent(todo[..i], n, skipped, w)
        invariant Distinct(added) && forall n :: n in added <==> n in started && n in Names(c.added)
        invariant Distinct(updated) && forall n :: n in updated <==> n in started && n !in Names(c.added)
        invariant Distinct(FailedNames(failed))
        invariant forall n :: n in FailedNames(failed) <==> n in skipped || NotSent(todo[..i], n, skipped, w)
        invariant forall n :: n !in Names(todo) ==> At(tunnels.byName, n) == At(old(tunnels.byName), n)
        invariant forall t <- todo[..i] :: t.name in started ==> t.name in tunnels.byName && tunnels.byName[t.name] == t
      {
        var t := todo[i];
        OneMore(todo, i, skipped, w);
        assert Names(todo)[i] == t.name;
        if t.name !in FailedNames(failed) {
          var isAdded := t.name in Names(c.added);
          var registered := RegisterTunnel(t, w, step + i);
          match registered {
            case Ok(_) =>
              AcceptedIsHeld(t, w);
              DistinctPush(started, t.name);
              started := started + [t.name];
              if isAdded {
                DistinctPush(added, t.name);
                added := added + [t.name];
              } else {
                DistinctPush(updated, t.name);
                updated := updated + [t.name];
              }
            case Err(e) =>
              FailedPush(failed, t.name, e);
              DistinctPush(FailedNames(failed), t.name);
              failed := failed + [(t.name, e)];
          }
        }
      }
      assert todo[..|todo|] == todo;
    }

    /** apply_tunnel_changes. */
    method ApplyTunnelChanges(c: TunnelChanges, w: World) returns (o: ReloadOutcome)
      requires watch.Valid() && WellFormed(c) && SleepsEnough(w)
      modifies tunnels, watch
      ensures watch.Valid() && o.level == TunnelsOnly && !o.connectionSettingsChanged
      ensures Settled(c, w, old(tunnels.byName), tunnels.byName, watch.ConfirmedNames(), o)
    {
      hide Refused, WellFormed, SleepsEnough, Settled, DistinctKeys, Distinct, Sent, NotSent, HeardAll, AnswersFrom, ErrorFits;
      ghost var before := tunnels.byName;
      var stop := StopNames(c);
      var removed, unclosed := CloseAll(c, stop, w);
      ghost var between := tunnels.byName;
      var todo := c.updated + c.added;
      TodoIsDistinct(c);
      var added, updated, failed;
      ghost var started, notSent, late;
      added, updated, failed, started, notSent, late := StartAndWait(c, todo, unclosed, w, |stop|);
      o := ReloadOutcome(TunnelsOnly, added, removed, updated, failed, false);
      AllSettled(c, w, Phases(between, stop, FailedNames(unclosed), started, notSent, late),
                 before, tunnels.byName, watch.ConfirmedNames(), o);
    }

    /** The second half, and the answers to it: what was not confirmed leaves its list and has failed. */
    method StartAndWait(c: TunnelChanges, todo: seq<TunnelConfig>, unclosed: seq<(string, string)>, w: World, step: nat)
      returns (added: seq<string>, updated: seq<string>, failed: seq<(string, string)>,
               ghost started: seq<string>, ghost notSent: seq<string>, ghost late: set<string>)
      requires watch.Valid() && DistinctKeys(NameOf, todo) && Distinct(FailedNames(unclosed)) && SleepsEnough(w)
      modifies tunnels, watch
      ensures watch.Valid()
      ensures forall n :: n in started <==> Sent(todo, n, FailedNames(unclosed), w)
      ensures forall n :: n in notSent <==> n in FailedNames(unclosed) || NotSent(todo, n, FailedNames(unclosed), w)
      ensures forall n :: n in late <==> n in started && n !in watch.ConfirmedNames()
      ensures Distinct(added) && forall n :: n in added <==> n in started && n in Names(c.added) && n !in late
      ensures Distinct(updated) && forall n :: n in updated <==> n in started && n !in Names(c.added) && n !in late
      ensures Distinct(FailedNames(failed)) && forall n :: n in FailedNames(failed) <==> n in notSent || n in late
      ensures forall n :: n !in Names(todo) ==> At(tunnels.byName, n) == At(old(tunnels.byName), n)
      ensures forall t <- todo :: t.name in started ==> t.name in tunnels.byName && tunnels.byName[t.name] == t
    {
      hide Refused, SleepsEnough, DistinctKeys, Distinct, Sent, NotSent, HeardAll, AnswersFrom, ErrorFits, At;
      var sent;
      sent, added, updated, failed := StartAll(c, todo, unclosed, w, step);
      started, notSent, late := sent, FailedNames(failed), {};
      if sent != [] {
        var errors, _ := CollectRegisterErrors(sent, w, step + |todo|);
        late := set n | n in FailedNames(errors);
        added, updated, failed := MergeErrors(errors, added, updated, failed);
      }
    }
  }

  /** The loop over the errors: each leaves its list, and is a failure once. */
  method MergeErrors(errors: seq<(string, string)>, added0: seq<string>, updated0: seq<string>, failed0: seq<(string, string)>)
    returns (added: seq<string>, updated: seq<string>, failed: seq<(string, string)>)
    requires Distinct(added0) && Distinct(updated0) && Distinct(FailedNames(failed0))
    ensures Distinct(added) && forall n :: n in added <==> n in added0 && n !in FailedNames(errors)
    ensures Distinct(updated) && forall n :: n in updated <==> n in updated0 && n !in FailedNames(errors)
    ensures Distinct(FailedNames(failed)) && forall n :: n in FailedNames(failed) <==> n in FailedNames(failed0) || n in FailedNames(errors)
  {
    added, updated, failed := added0, updated0, failed0;
    for i := 0 to |errors|
      invariant Distinct(added) && forall n :: n in added <==> n in added0 && n !in FailedNames(errors)[..i]
      invariant Distinct(updated) && forall n :: n in updated <==> n in updated0 && n !in FailedNames(errors)[..i]
      invariant Distinct(FailedNames(failed))
      invariant forall n :: n in FailedNames(failed) <==> n in FailedNames(failed0) || n in FailedNames(errors)[..i]
    {
      var (name, err) := errors[i];
      assert FailedNames(errors)[..i + 1] == FailedNames(errors)[..i] + [name];
      added := Dropped(added, name);
      updated := Dropped(updated, name);
      if name !in FailedNames(failed) {
        FailedPush(failed, name, err);
        DistinctPush(FailedNames(failed), name);
        failed := failed + [(name, err)];
      }
    }
    assert FailedNames(errors)[..|errors|] == FailedNames(errors);
  }

  lemma TodoIsDistinct(c: TunnelChanges)
    requires WellFormed(c)
    ensures DistinctKeys(NameOf, c.updated + c.added)
    ensures forall n <- c.removed :: n !in Names(c.updated + c.added)
    ensures forall n <- Names(c.updated) :: n !in Names(c.added)
    ensures forall n :: n in Names(c.updated + c.added) <==> n in Names(c.updated) || n in Names(c.added)
  {
    var all, todo := c.removed + Names(c.updated + c.added), c.updated + c.added;
    var k := |c.removed|;
    forall i, j | 0 <= i < j < |todo| ensures NameOf(todo[i]) != NameOf(todo[j]) {
      assert Itself(all[k + i]) != Itself(all[k + j]);
    }
    forall i, j | 0 <= i < k && 0 <= j < |todo| ensures c.removed[i] != todo[j].name {
      assert Itself(all[i]) != Itself(all[k + j]);
    }
    assert Names(todo) == Names(c.updated) + Names(c.added);
    forall i, j | 0 <= i < |c.updated| && 0 <= j < |c.added| ensures c.updated[i].name != c.added[j].name {
      assert NameOf(todo[i]) != NameOf(todo[|c.updated| + j]);
    }
  }

  lemma NothingIsDistinct()
    ensures Distinct([])
  {
  }

  lemma NothingSent(unclosed: seq<string>, w: World)
    ensures forall n :: !Sent([], n, unclosed, w) && !NotSent([], n, unclosed, w)
  {
  }

  /** What the i-th registration adds to the names sent and not sent. */
  lemma OneMore(todo: seq<TunnelConfig>, i: nat, unclosed: seq<string>, w: World)
    requires i < |todo| && DistinctKeys(NameOf, todo)
    ensures forall t <- todo[..i] :: t.name != todo[i].name
    ensures !Sent(todo[..i], todo[i].name, unclosed, w) && !NotSent(todo[..i], todo[i].name, unclosed, w)
    ensures forall n :: Sent(todo[..i + 1], n, unclosed, w) <==>
                        Sent(todo[..i], n, unclosed, w) || (n == todo[i].name && n !in unclosed && !Refused(todo[i], w))
    ensures forall n :: NotSent(todo[..i + 1], n, unclosed, w) <==>
                        NotSent(todo[..i], n, unclosed, w) || (n == todo[i].name && n !in unclosed && Refused(todo[i], w))
    ensures todo[..i + 1] == todo[..i] + [todo[i]]
  {
    hide Refused;
    assert todo[..i + 1] == todo[..i] + [todo[i]];
    assert forall j :: 0 <= j < i ==> NameOf(todo[j]) != NameOf(todo[i]);
    forall n
      ensures Sent(todo[..i + 1], n, unclosed, w) <==>
              Sent(todo[..i], n, unclosed, w) || (n == todo[i].name && n !in unclosed && !Refused(todo[i], w))
      ensures NotSent(todo[..i + 1], n, unclosed, w) <==>
              NotSent(todo[..i], n, unclosed, w) || (n == todo[i].name && n !in unclosed && Refused(todo[i], w))
    {
      assert todo[i] in todo[..i + 1];
      assert forall t <- todo[..i] :: t in todo[..i + 1];
    }
  }

  /** Silence is reported as such, and else an error that was answered. */
  ghost predicate ErrorFits(error: string, answers: seq<Option<string>>) {
    if answers == [] then error == "tunnel start timed out" else Some(error) in answers
  }

  /** Every answer that comes in at so many await points from this one on. */
  function AnswersFrom(w: World, step: nat, points: nat): seq<Response> {
    if points == 0 then [] else AnswersFrom(w, step, points - 1) + w.answers(step + points - 1)
  }

  lemma {:induction false} HeardAllAppend(since: map<string, seq<Option<string>>>, a: seq<Response>, b: seq<Response>)
    ensures HeardAll(since, a + b) == HeardAll(HeardAll(since, a), b)
    decreases |b|
  {
    if b == [] {
      assert a + b == a;
    } else {
      assert (a + b)[..|a + b| - 1] == a + b[..|b| - 1];
      HeardAllAppend(since, a, b[..|b| - 1]);
    }
  }

  lemma NothingHeard(since: map<string, seq<Option<string>>>, w: World, step: nat)
    ensures HeardAll(since, AnswersFrom(w, step, 0)) == since
  {
  }

  lemma MoreHeard(since: map<string, seq<Option<string>>>, w: World, step: nat, points: nat)
    ensures HeardAll(since, AnswersFrom(w, step, points + 1)) == HeardAll(HeardAll(since, AnswersFrom(w, step, points)), w.answers(step + points))
  {
    HeardAllAppend(since, AnswersFrom(w, step, points), w.answers(step + points));
  }

  /** The parts of a reload: what each phase leaves in its lists and in the manager. */
  datatype Phases = Phases(
    between: TunnelMap, stop: seq<string>, unclosed: seq<string>, started: seq<string>, notSent: seq<string>, late: set<string>)

  ghost predicate Tally(c: TunnelChanges, w: World, p: Phases, before: TunnelMap, after: TunnelMap,
                        confirmed: set<string>, o: ReloadOutcome) {
    && WellFormed(c)
    && (forall n :: n in p.stop <==> n in c.removed || n in Names(c.updated))
    && Distinct(o.removed) && Distinct(o.added) && Distinct(o.updated) && Distinct(FailedNames(o.failed))
    && (forall n :: n in o.removed <==> n in p.stop && w.closeFails(n).None? && n in c.removed)
    && (forall n :: n in p.unclosed <==> n in p.stop && w.closeFails(n).Some?)
    && p.between == before - (set n | n in p.stop && w.closeFails(n).None?)
    && (forall n :: n in p.started <==> Sent(c.updated + c.added, n, p.unclosed, w))
    && (forall n :: n in p.notSent <==> n in p.unclosed || NotSent(c.updated + c.added, n, p.unclosed, w))
    && (forall n <- p.started :: n in p.late <==> n !in confirmed)
    && (forall n <- p.late :: n in p.started)
    && (forall n :: n in o.added <==> n in p.started && n in Names(c.added) && n !in p.late)
    && (forall n :: n in o.updated <==> n in p.started && n !in Names(c.added) && n !in p.late)
    && (forall n :: n in FailedNames(o.failed) <==> n in p.notSent || n in p.late)
    && (forall n :: n !in Names(c.updated + c.added) ==> At(after, n) == At(p.between, n))
    && (forall t <- c.updated + c.added :: t.name in p.started ==> t.name in after && after[t.name] == t)
  }

  lemma AllSettled(c: TunnelChanges, w: World, p: Phases, before: TunnelMap, after: TunnelMap,
                   confirmed: set<string>, o: ReloadOutcome)
    requires Tally(c, w, p, before, after, confirmed, o)
    ensures Settled(c, w, before, after, confirmed, o)
  {
    hide Tally, RemovedSettled, UpdatedSettled, AddedSettled, OthersUntouched;
    RemovedAreSettled(c, w, p, before, after, confirmed, o);
    RegisteredAreSettled(c, w, p, before, after, confirmed, o);
    ListsAreAsNamed(c, w, p, before, after, confirmed, o);
  }

  lemma RemovedAreSettled(c: TunnelChanges, w: World, p: Phases, before: TunnelMap, after: TunnelMap,
                          confirmed: set<string>, o: ReloadOutcome)
    requires Tally(c, w, p, before, after, confirmed, o)
    ensures RemovedSettled(c, w, after, o) && OthersUntouched(c, before, after, o)
  {
    hide Refused, WellFormed, Sent, NotSent, DistinctKeys, Distinct;
    TodoIsDistinct(c);
    NotInTodoNotSent(c.updated + c.added, p.unclosed, w);
    forall n | n in c.removed ensures n in after <==> n in p.between {
      SameAt(after, p.between, n);
    }
  }

  lemma SameAt(a: TunnelMap, b: TunnelMap, n: string)
    requires At(a, n) == At(b, n)
    ensures n in a <==> n in b
    ensures n in a ==> a[n] == b[n]
  {
    assert n in a <==> n in At(a, n);
    assert n in b <==> n in At(b, n);
    assert n in a && n in b ==> At(a, n)[n] == a[n] && At(b, n)[n] == b[n];
  }

  lemma RegisteredAreSettled(c: TunnelChanges, w: World, p: Phases, before: TunnelMap, after: TunnelMap,
                             confirmed: set<string>, o: ReloadOutcome)
    requires Tally(c, w, p, before, after, confirmed, o)
    ensures UpdatedSettled(c, w, after, confirmed, o) && AddedSettled(c, w, after, confirmed, o)
  {
    hide Refused, WellFormed, Sent, NotSent, DistinctKeys, Distinct, At;
    TodoIsDistinct(c);
    forall t | t in c.updated + c.added
      ensures Sent(c.updated + c.added, t.name, p.unclosed, w) <==> t.name !in p.unclosed && !Refused(t, w)
      ensures NotSent(c.updated + c.added, t.name, p.unclosed, w) <==> t.name !in p.unclosed && Refused(t, w)
      ensures t in c.updated ==> t.name in Names(c.updated)
      ensures t in c.added ==> t.name in Names(c.added)
    {
      OneOfAName(c.updated + c.added, t, p.unclosed, w);
      NamedIn(c.updated, t.name);
      NamedIn(c.added, t.name);
    }
  }

  lemma ListsAreAsNamed(c: TunnelChanges, w: World, p: Phases, before: TunnelMap, after: TunnelMap,
                        confirmed: set<string>, o: ReloadOutcome)
    requires Tally(c, w, p, before, after, confirmed, o)
    ensures ListsAreProper(c, o)
  {
    hide Refused, WellFormed, Sent, NotSent, DistinctKeys, Distinct, At;
    TodoIsDistinct(c);
    NotInTodoNotSent(c.updated + c.added, p.unclosed, w);
  }

  lemma OneOfAName(todo: seq<TunnelConfig>, t: TunnelConfig, unclosed: seq<string>, w: World)
    requires DistinctKeys(NameOf, todo) && t in todo
    ensures Sent(todo, t.name, unclosed, w) <==> t.name !in unclosed && !Refused(t, w)
    ensures NotSent(todo, t.name, unclosed, w) <==> t.name !in unclosed && Refused(t, w)
  {
    var i :| 0 <= i < |todo| && todo[i] == t;
    forall u | u in todo && u.name == t.name ensures u == t {
      var j :| 0 <= j < |todo| && todo[j] == u;
      assert NameOf(todo[i]) == NameOf(todo[j]);
    }
  }

  lemma NotInTodoNotSent(todo: seq<TunnelConfig>, unclosed: seq<string>, w: World)
    ensures forall n :: n !in Names(todo) ==> !Sent(todo, n, unclosed, w) && !NotSent(todo, n, unclosed, w)
  {
    forall n | n !in Names(todo) ensures !Sent(todo, n, unclosed, w) && !NotSent(todo, n, unclosed, w) {
      NamedIn(todo, n);
    }
  }

  // ---------- what a reload comes to ----------

  lemma DiffIsWellFormed(c: TunnelChanges, current: TunnelMap, wanted: TunnelMap)
    requires IsDiff(c, current, wanted)
    ensures WellFormed(c)
  {
    var all, k, m := c.removed + Names(c.updated + c.added), |c.removed|, |c.removed| + |c.updated|;
    forall i, j | 0 <= i < j < |all| ensures Itself(all[i]) != Itself(all[j]) {
      if i < k {
        assert c.removed[i] in c.removed;
      } else if i < m {
        assert c.updated[i - k] in c.updated;
      }
      if j < k {
        LessIsIrreflexive(all[i]);
        assert Less(Itself(c.removed[i]), Itself(c.removed[j]));
      } else if j < m {
        assert c.updated[j - k] in c.updated;
        if i >= k {
          LessIsIrreflexive(all[i]);
          assert Less(NameOf(c.updated[i - k]), NameOf(c.updated[j - k]));
        }
      } else {
        assert c.added[j - m] in c.added;
        if i >= m {
          LessIsIrreflexive(all[i]);
          assert Less(NameOf(c.added[i - m]), NameOf(c.added[j - m]));
        }
      }
    }
  }

  function Times(n: string, xs: seq<string>): nat {
    if n in xs then 1 else 0
  }

  /** Every name that differs is in exactly one list of the outcome, and no other name is in any. */
  lemma EachChangeIsReportedOnce(c: TunnelChanges, w: World, current: TunnelMap, wanted: TunnelMap, before: TunnelMap,
                                 after: TunnelMap, confirmed: set<string>, o: ReloadOutcome, n: string)
    requires IsDiff(c, current, wanted) && Keyed(current) && Keyed(wanted) && Settled(c, w, before, after, confirmed, o)
    ensures Times(n, o.added) + Times(n, o.removed) + Times(n, o.updated) + Times(n, FailedNames(o.failed))
         == if At(current, n) != At(wanted, n) then 1 else 0
  {
    hide Refused, StrictlyAscending, WellFormed, Distinct, At;
    DiffIsWellFormed(c, current, wanted);
    TodoIsDistinct(c);
    NamedIn(c.updated, n);
    NamedIn(c.added, n);
    OutcomeNamesTheDiff(Apply(c, false), current, wanted, n);
  }

  /** Where the manager held the old configuration, it holds the new one on every name that did
      not fail. */
  lemma ManagerHoldsTheNew(c: TunnelChanges, w: World, current: TunnelMap, wanted: TunnelMap, before: TunnelMap,
                           after: TunnelMap, confirmed: set<string>, o: ReloadOutcome, n: string)
    requires IsDiff(c, current, wanted) && Keyed(current) && Keyed(wanted) && Settled(c, w, before, after, confirmed, o)
    requires At(before, n) == At(current, n) && n !in FailedNames(o.failed)
    ensures At(after, n) == At(wanted, n)
  {
    hide Refused, StrictlyAscending, WellFormed, Distinct;
    DiffIsWellFormed(c, current, wanted);
    TodoIsDistinct(c);
    NamedIn(c.updated, n);
    NamedIn(c.added, n);
    OutcomeNamesTheDiff(Apply(c, false), current, wanted, n);
  }
}
