/** The client's main loop (client service.rs): connect, serve reload requests, reconnect. What
    happens at each await point is given by a world; the loop is followed for a number of steps. */
module ClientService {
  import opened Wrappers
  import opened ReloadPlan
  import ClientControl

  const RECONNECT_BASE_SECS := 1
  const RECONNECT_MAX_SECS := 60

  datatype Request = Request(id: nat, cfg: ClientConfig)

  datatype Reply = Reply(id: nat, result: Result<ReloadOutcome, string>)

  datatype Pending = Pending(id: nat, outcome: ReloadOutcome)

  datatype SessionEnd = Kicked | Disconnected | Broken

  /** Which branch of a select is taken. A request of None means that the channel is closed. */
  datatype Connect = ConnectCancelled | ConnectRequest(req: Option<Request>) | Answered(login: Login)

  datatype Login = NoAnswer | Rejected | Accepted(sessionId: string)

  datatype Wait = WaitCancelled | Slept | WaitRequest(req: Option<Request>)

  datatype InSession = SessionCancelled | SessionRequest(req: Option<Request>) | SessionDone

  datatype World = World(
    cancelled: nat -> bool,
    tryRecv: nat -> Option<Request>,
    connect: nat -> Connect,
    wait: nat -> Wait,
    session: nat -> InSession,
    ended: nat -> SessionEnd,
    control: nat -> ClientControl.World,
    prepared: ClientConfig -> ClientConfig,
    invalid: ClientConfig -> Option<string>)

  ghost predicate SleepsEnough(w: World) {
    forall k: nat :: ClientControl.SleepsEnough(w.control(k))
  }

  datatype ApplyResult = ReplyWith(result: Result<ReloadOutcome, string>) | Reconnect(outcome: ReloadOutcome)

  datatype SessionLoopEnd = Cancelled | Session(end: SessionEnd) | ReloadReconnect(pending: Pending) | Unfinished

  datatype RunEnd = Stopped | LoginRejected | KickedOut | StillRunning

  // ---------- the history of a run ----------

  /** How a session ended after which the loop goes on: given up for a reload, disconnected, or failed. */
  datatype Ending = ForReload | Dropped | InError

  /** A login is sent; a request comes before its answer; it comes to nothing; it opens a session. */
  datatype Event = Opening(sessionId: string) | Interrupted | Failure | Established
                 | Waited(secs: nat) | Ended(how: Ending, sessionId: string)

  function Power(k: nat): nat {
    if k == 0 then 1 else 2 * Power(k - 1)
  }

  /** The k-th delay: the k-th power of two, at most a minute. */
  function Delay(k: nat): nat {
    if Power(k) <= RECONNECT_MAX_SECS then Power(k) else RECONNECT_MAX_SECS
  }

  function Clamp(secs: nat): nat {
    if secs < RECONNECT_BASE_SECS then RECONNECT_BASE_SECS
    else if secs > RECONNECT_MAX_SECS then RECONNECT_MAX_SECS
    else secs
  }

  /** How many waits there were since the last established session. */
  function WaitsSince(log: seq<Event>): nat {
    if log == [] then 0
    else
      match log[|log| - 1]
      case Established => 0
      case Waited(_) => WaitsSince(log[..|log| - 1]) + 1
      case _ => WaitsSince(log[..|log| - 1])
  }

  /** The session that was last disconnected. */
  function LastLost(log: seq<Event>): string {
    if log == [] then ""
    else
      match log[|log| - 1]
      case Ended(Dropped, id) => id
      case _ => LastLost(log[..|log| - 1])
  }

  function Last(log: seq<Event>): Option<Event> {
    if log == [] then None else Some(log[|log| - 1])
  }

  /** What may come next: a login at first, after a wait, and at once only where a request came before the
      answer or a session was given up for a reload; a wait after a login that came to nothing and after
      any other end of a session. */
  predicate MayFollow(last: Option<Event>, e: Event) {
    match e
    case Opening(_) => last.None? || last.value.Interrupted? || last.value.Waited? || (last.value.Ended? && last.value.how.ForReload?)
    case Interrupted => last.Some? && last.value.Opening?
    case Failure => last.Some? && last.value.Opening?
    case Established => last.Some? && last.value.Opening?
    case Ended(_, _) => last.Some? && last.value.Established?
    case Waited(_) => last.Some? && (last.value.Failure? || (last.value.Ended? && !last.value.how.ForReload?))
  }

  /** Every wait has the length its place since the last established session calls for, every login
      presents the session that was last disconnected, and the events come in order. */
  ghost predicate Proper(log: seq<Event>) {
    forall i :: 0 <= i < |log| ==>
      && MayFollow(Last(log[..i]), log[i])
      && (log[i].Waited? ==> log[i].secs == Delay(WaitsSince(log[..i])))
      && (log[i].Opening? ==> log[i].sessionId == LastLost(log[..i]))
  }

  lemma ProperAfter(log: seq<Event>, e: Event)
    requires Proper(log)
    requires e.Waited? ==> e.secs == Delay(WaitsSince(log))
    requires e.Opening? ==> e.sessionId == LastLost(log)
    requires MayFollow(Last(log), e)
    ensures Proper(log + [e]) && Last(log + [e]) == Some(e)
    ensures WaitsSince(log + [e]) == match e case Established => 0 case Waited(_) => WaitsSince(log) + 1 case _ => WaitsSince(log)
    ensures LastLost(log + [e]) == match e case Ended(Dropped, id) => id case _ => LastLost(log)
  {
    var more := log + [e];
    assert more[..|log|] == log;
    forall i | 0 <= i < |more|
      ensures more[i].Waited? ==> more[i].secs == Delay(WaitsSince(more[..i]))
      ensures more[i].Opening? ==> more[i].sessionId == LastLost(more[..i])
      ensures MayFollow(Last(more[..i]), more[i])
    {
      if i < |log| {
        assert more[..i] == log[..i];
      }
    }
  }

  function CountWaits(events: seq<Event>): nat {
    if events == [] then 0
    else CountWaits(events[..|events| - 1]) + if events[|events| - 1].Waited? then 1 else 0
  }

  lemma {:induction false} WaitsAreCounted(log: seq<Event>, i: nat)
    requires i <= |log| && (i == 0 || log[i - 1].Established?)
    requires forall m :: i <= m < |log| ==> !log[m].Established?
    ensures WaitsSince(log) == CountWaits(log[i..])
    decreases |log|
  {
    if i < |log| {
      var init := log[..|log| - 1];
      assert init[i..] == log[i..][..|log| - i - 1];
      WaitsAreCounted(init, i);
    }
  }

  /** The wait after k others since the last established session, or since the start, takes the
      k-th power of two in seconds, at most a minute. */
  lemma KthWait(log: seq<Event>, i: nat, j: nat)
    requires Proper(log) && i <= j < |log| && log[j].Waited?
    requires i == 0 || log[i - 1].Established?
    requires forall m :: i <= m < j ==> !log[m].Established?
    ensures var power := Power(CountWaits(log[i..j]));
            log[j].secs == if power <= 60 then power else 60
  {
    WaitsAreCounted(log[..j], i);
    assert log[..j][i..] == log[i..j];
  }

  function RequestIds(rs: seq<Request>): (ids: seq<nat>)
    ensures |ids| == |rs| && forall i :: 0 <= i < |rs| ==> ids[i] == rs[i].id
  {
    seq(|rs|, i requires 0 <= i < |rs| => rs[i].id)
  }

  function ReplyIds(rs: seq<Reply>): (ids: seq<nat>)
    ensures |ids| == |rs| && forall i :: 0 <= i < |rs| ==> ids[i] == rs[i].id
  {
    seq(|rs|, i requires 0 <= i < |rs| => rs[i].id)
  }

  function PendingIds(p: Option<Pending>): multiset<nat> {
    match p case None => multiset{} case Some(q) => multiset{q.id}
  }

  /** The last valid configuration among the first one and those asked for. */
  function LastValid(first: ClientConfig, received: seq<Request>, w: World): ClientConfig {
    if received == [] then first
    else
      var cfg := w.prepared(received[|received| - 1].cfg);
      if w.invalid(cfg).None? then cfg else LastValid(first, received[..|received| - 1], w)
  }

  // ---------- what a request leads to ----------

  /** The configuration in force and the answer: what is invalid changes nothing; else the plan
      decides, and the configuration becomes one equivalent to what was asked. */
  ghost predicate Decision(w: World, before: ClientConfig, after: ClientConfig, asked: ClientConfig, connected: bool,
                           plan: ReloadPlan, r: ApplyResult) {
    var wanted := w.prepared(asked);
    if w.invalid(wanted).Some? then plan == Noop && after == before && r == ReplyWith(Err(w.invalid(wanted).value))
    else
      match plan
      case Noop => Equivalent(before, wanted) && after == before && r == ReplyWith(Ok(EmptyOutcome(plan)))
      case Apply(changes, reconnect) =>
        && !Equivalent(before, wanted) && after == wanted
        && IsDiff(changes, ToMap(before.tunnels), ToMap(wanted.tunnels))
        && (reconnect <==> before.connection != wanted.connection)
        && (!connected ==> r == ReplyWith(Ok(OutcomeFromPlan(plan, changes))))
        && (connected && reconnect ==> r == Reconnect(OutcomeFromPlan(plan, changes)))
        && (connected && !reconnect ==> r.ReplyWith? && r.result.Ok? && r.result.value.level == TunnelsOnly)
  }

  /** The tunnel manager of the session goes along, unless the session is given up. */
  ghost predicate ManagerFollows(cw: ClientControl.World, plan: ReloadPlan, before: TunnelMap, after: TunnelMap,
                                 confirmed: set<string>, r: ApplyResult) {
    match plan
    case Noop => after == before
    case Apply(changes, reconnect) =>
      if reconnect then forall n :: At(after, n) == if cw.closeFails(n).Some? then At(before, n) else map[]
      else (r.ReplyWith? && r.result.Ok? && ClientControl.Settled(changes, cw, before, after, confirmed, r.result.value))
  }

  lemma DecisionFacts(w: World, before: ClientConfig, after: ClientConfig, asked: ClientConfig, connected: bool,
                      plan: ReloadPlan, r: ApplyResult)
    requires Decision(w, before, after, asked, connected, plan, r)
    ensures !connected ==> r.ReplyWith?
    ensures r.ReplyWith? ==> (r.result.Ok? <==> w.invalid(w.prepared(asked)).None?)
    ensures Equivalent(after, if w.invalid(w.prepared(asked)).None? then w.prepared(asked) else before)
    ensures w.invalid(w.prepared(asked)).Some? ==> after == before && r == ReplyWith(Err(w.invalid(w.prepared(asked)).value))
    ensures connected ==> (r.Reconnect? <==> w.invalid(w.prepared(asked)).None? && before.connection != w.prepared(asked).connection)
  {
  }

  /** Whatever was asked, the configuration stays equivalent to the last valid one. */
  lemma CurrentFollows(w: World, first: ClientConfig, received: seq<Request>, req: Request, before: ClientConfig,
                       after: ClientConfig, connected: bool, plan: ReloadPlan, r: ApplyResult)
    requires Equivalent(before, LastValid(first, received, w)) && Decision(w, before, after, req.cfg, connected, plan, r)
    ensures Equivalent(after, LastValid(first, received + [req], w))
  {
    hide Decision;
    DecisionFacts(w, before, after, req.cfg, connected, plan, r);
    assert (received + [req])[..|received|] == received;
  }

  lemma EquivalentIff(a: ClientConfig, b: ClientConfig)
    ensures Equivalent(a, b) <==> a.connection == b.connection && ToMap(a.tunnels) == ToMap(b.tunnels)
  {
  }

  function FailedIn(r: ApplyResult): set<string> {
    if r.ReplyWith? && r.result.Ok? then set n | n in ClientControl.FailedNames(r.result.value.failed) else {}
  }

  /** The manager holds a configuration on every name outside `failed`. */
  ghost predicate Holds(held: TunnelMap, cfg: ClientConfig, failed: set<string>) {
    forall n :: n !in failed ==> At(held, n) == At(ToMap(cfg.tunnels), n)
  }

  /** A reload keeps the manager at the configuration in force, on every name that never failed. */
  lemma ManagerStaysCurrent(w: World, cw: ClientControl.World, before: ClientConfig, after: ClientConfig, asked: ClientConfig,
                            plan: ReloadPlan, r: ApplyResult, held: TunnelMap, holds: TunnelMap, confirmed: set<string>, failed: set<string>)
    requires Decision(w, before, after, asked, true, plan, r) && ManagerFollows(cw, plan, held, holds, confirmed, r)
    requires r.ReplyWith? && Holds(held, before, failed)
    ensures Holds(holds, after, failed + FailedIn(r))
  {
    hide ClientControl.Settled, IsDiff, At, ToMap;
    ToMapFacts(before.tunnels);
    ToMapFacts(after.tunnels);
    if plan.Apply? {
      forall n | n !in failed + FailedIn(r) ensures At(holds, n) == At(ToMap(after.tunnels), n) {
        ClientControl.ManagerHoldsTheNew(plan.changes, cw, ToMap(before.tunnels), ToMap(after.tunnels), held, holds, confirmed,
                                         r.result.value, n);
      }
    }
  }

  lemma ReconnectCloses(w: World, cw: ClientControl.World, before: ClientConfig, after: ClientConfig, asked: ClientConfig,
                        plan: ReloadPlan, r: ApplyResult, held: TunnelMap, holds: TunnelMap, confirmed: set<string>)
    requires Decision(w, before, after, asked, true, plan, r) && ManagerFollows(cw, plan, held, holds, confirmed, r)
    requires r.Reconnect?
    ensures forall n :: At(holds, n) == if cw.closeFails(n).Some? then At(held, n) else map[]
  {
    hide ClientControl.Settled, IsDiff, At, ToMap;
  }

  // ---------- the loop ----------

  class Service {
    const w: World
    const limit: nat
    ghost const first: ClientConfig
    var cfg: ClientConfig
    var step: nat
    var sessionId: string
    var backoffSecs: nat
    var pending: Option<Pending>
    ghost var received: seq<Request>
    ghost var replies: seq<Reply>
    ghost var log: seq<Event>

    /** Every received request but those in `inHand` was answered once or waits in the slot. */
    ghost predicate Accounted(inHand: multiset<nat>)
      reads this`received, this`replies, this`pending
    {
      multiset(RequestIds(received)) == multiset(ReplyIds(replies)) + PendingIds(pending) + inHand
    }

    /** The configuration in force is the last valid one, up to what a reload is about. */
    ghost predicate Current()
      reads this`cfg, this`received
    {
      Equivalent(cfg, LastValid(first, received, w))
    }

    ghost predicate Valid()
      reads this
    {
      Current() && Proper(log) && sessionId == LastLost(log) && backoffSecs == Delay(WaitsSince(log)) && SleepsEnough(w)
    }

    constructor (cfg: ClientConfig, w: World, limit: nat)
      requires SleepsEnough(w)
      ensures Valid() && Accounted(multiset{}) && pending.None? && received == [] && replies == [] && log == []
      ensures first == cfg && this.w == w && step == 0 && this.limit == limit
    {
      this.w, this.limit, this.cfg, first := w, limit, cfg, cfg;
      step, sessionId, backoffSecs, pending := 0, "", RECONNECT_BASE_SECS, None;
      received, replies, log := [], [], [];
    }

    /** A request is taken from the channel. */
    ghost method Receive(req: Request)
      requires Accounted(multiset{})
      modifies this`received
      ensures received == old(received) + [req] && Accounted(multiset{req.id})
    {
      assert RequestIds(received + [req]) == RequestIds(received) + [req.id];
      received := received + [req];
    }

    /** A reply is sent. */
    ghost method Send(id: nat, result: Result<ReloadOutcome, string>)
      requires Accounted(multiset{id})
      modifies this`replies
      ensures replies == old(replies) + [Reply(id, result)] && Accounted(multiset{})
    {
      assert ReplyIds(replies + [Reply(id, result)]) == ReplyIds(replies) + [id];
      replies := replies + [Reply(id, result)];
    }

    ghost method Record(e: Event)
      requires Proper(log)
      requires e.Waited? ==> e.secs == Delay(WaitsSince(log))
      requires e.Opening? ==> e.sessionId == LastLost(log)
      requires MayFollow(Last(log), e)
      modifies this`log
      ensures log == old(log) + [e] && Proper(log) && Last(log) == Some(e)
      ensures WaitsSince(log) == match e case Established => 0 case Waited(_) => WaitsSince(old(log)) + 1 case _ => WaitsSince(old(log))
      ensures LastLost(log) == match e case Ended(Dropped, id) => id case _ => LastLost(old(log))
    {
      ProperAfter(log, e);
      log := log + [e];
    }

    /** fail_pending_reload. */
    method FailPending(reason: string)
      requires Accounted(multiset{})
      modifies this`pending, this`replies
      ensures pending.None? && Accounted(multiset{})
      ensures replies == old(replies) + match old(pending) case None => [] case Some(p) => [Reply(p.id, Err(reason))]
    {
      match pending {
        case None =>
        case Some(p) =>
          pending := None;
          Send(p.id, Err(reason));
      }
    }

    /** The slot is emptied with the outcome it holds when a session is established. */
    method AnswerPending()
      requires Accounted(multiset{})
      modifies this`pending, this`replies
      ensures pending.None? && Accounted(multiset{})
      ensures replies == old(replies) + match old(pending) case None => [] case Some(p) => [Reply(p.id, Ok(p.outcome))]
    {
      match pending {
        case None =>
        case Some(p) =>
          pending := None;
          Send(p.id, Ok(p.outcome));
      }
    }

    /** The slot is filled; it is empty before. */
    method KeepPending(p: Pending)
      requires pending.None? && Accounted(multiset{p.id})
      modifies this`pending
      ensures pending == Some(p) && Accounted(multiset{})
    {
      pending := Some(p);
    }

    /** apply_reload: what is invalid changes nothing; else the plan decides, and the configuration
        in force becomes one equivalent to what was asked. */
    method ApplyReload(asked: ClientConfig, control: ClientControl.Control?, cw: ClientControl.World)
      returns (r: ApplyResult, ghost plan: ReloadPlan)
      requires control != null ==> control.watch.Valid() && ClientControl.SleepsEnough(cw)
      modifies this`cfg
      modifies if control == null then {} else {control.tunnels, control.watch}
      ensures control != null ==> control.watch.Valid()
      ensures Decision(w, old(cfg), cfg, asked, control != null, plan, r)
      ensures control != null ==>
        ManagerFollows(cw, plan, old(control.tunnels.byName), control.tunnels.byName,
                       control.watch.ConfirmedNames(), r)
    {
      hide ClientControl.Settled, IsDiff, ClientControl.SleepsEnough, ToMap, ClientControl.WellFormed;
      var wanted := w.prepared(asked);
      plan := Noop;
      if w.invalid(wanted).Some? {
        return ReplyWith(Err(w.invalid(wanted).value)), Noop;
      }
      var thePlan := PlanReload(cfg, wanted);
      plan := thePlan;
      match thePlan {
        case Noop => r := ReplyWith(Ok(EmptyOutcome(thePlan)));
        case Apply(changes, true) =>
          var outcome := OutcomeFromPlan(thePlan, changes);
          cfg := wanted;
          if control != null {
            control.CloseAllTunnels(cw, 0);
            return Reconnect(outcome), thePlan;
          }
          r := ReplyWith(Ok(outcome));
        case Apply(changes, false) =>
          if control != null {
            ClientControl.DiffIsWellFormed(changes, ToMap(cfg.tunnels), ToMap(wanted.tunnels));
            var o := control.ApplyTunnelChanges(changes, cw);
            ClientControl.SettledWhateverLevel(changes, cw, old(control.tunnels.byName), control.tunnels.byName,
                                               control.watch.ConfirmedNames(), o, OutcomeLevel(thePlan));
            o := o.(level := OutcomeLevel(thePlan));
            cfg := wanted;
            r := ReplyWith(Ok(o));
          } else {
            cfg := wanted;
            r := ReplyWith(Ok(OutcomeFromPlan(thePlan, changes).(level := OutcomeLevel(thePlan))));
          }
      }
    }

    /** A request with no session to apply it to is answered at once. */
    method Serve(req: Request)
      requires Valid() && Accounted(multiset{})
      modifies this`cfg, this`received, this`replies
      ensures Valid() && Accounted(multiset{}) && received == old(received) + [req]
      ensures |replies| == |old(replies)| + 1 && replies[..|old(replies)|] == old(replies)
      ensures var last := replies[|old(replies)|]; last.id == req.id && (last.result.Ok? <==> w.invalid(w.prepared(req.cfg)).None?)
      ensures w.invalid(w.prepared(req.cfg)).Some? ==> cfg == old(cfg) && replies[|old(replies)|].result == Err(w.invalid(w.prepared(req.cfg)).value)
      ensures var wanted := w.prepared(req.cfg);
              w.invalid(wanted).None? ==> cfg.connection == wanted.connection && ToMap(cfg.tunnels) == ToMap(wanted.tunnels)
    {
      hide Decision, ManagerFollows, Equivalent, LastValid, Proper, Delay, WaitsSince, LastLost, Last, SleepsEnough, Accounted;
      Receive(req);
      ghost var before := cfg;
      var applied, plan := ApplyReload(req.cfg, null, w.control(step));
      DecisionFacts(w, before, cfg, req.cfg, false, plan, applied);
      CurrentFollows(w, first, old(received), req, before, cfg, false, plan, applied);
      EquivalentIff(cfg, w.prepared(req.cfg));
      Send(req.id, match applied case ReplyWith(result) => result case Reconnect(outcome) => Ok(outcome));
    }

    /** drain_reload_requests. */
    method Drain()
      requires Valid() && Accounted(multiset{})
      modifies this`cfg, this`received, this`replies, this`step
      ensures Valid() && Accounted(multiset{}) && step >= old(step)
      ensures forall k :: old(step) <= k < step - 1 ==> w.tryRecv(k).Some?
      ensures step >= limit || (step > old(step) && w.tryRecv(step - 1).None?)
      ensures |received| == |old(received)| + step - old(step) - if step > old(step) && w.tryRecv(step - 1).None? then 1 else 0
    {
      hide Equivalent, LastValid, Proper, Delay, WaitsSince, LastLost, Last, SleepsEnough, Accounted, Current;
      while step < limit
        invariant Valid() && Accounted(multiset{}) && step >= old(step)
        invariant forall k :: old(step) <= k < step ==> w.tryRecv(k).Some?
        invariant |received| == |old(received)| + step - old(step)
        decreases limit - step
      {
        var req := w.tryRecv(step);
        step := step + 1;
        if req.None? {
          return;
        }
        Serve(req.value);
      }
    }

    /** wait_or_reload; a request cuts the wait short. */
    method WaitOrReload() returns (isCancelled: bool)
      requires Valid() && Accounted(multiset{}) && MayFollow(Last(log), Waited(backoffSecs))
      modifies this`cfg, this`received, this`replies, this`step, this`log
      ensures isCancelled <==> w.wait(old(step)).WaitCancelled?
      ensures |received| == |old(received)| + if w.wait(old(step)).WaitRequest? && w.wait(old(step)).req.Some? then 1 else 0
      ensures Current() && Accounted(multiset{}) && step == old(step) + 1
      ensures log == old(log) + [Waited(backoffSecs)] && Proper(log) && Last(log) == Some(Waited(backoffSecs))
      ensures sessionId == LastLost(log) && WaitsSince(log) == WaitsSince(old(log)) + 1
    {
      hide Equivalent, LastValid, Proper, Delay, WaitsSince, LastLost, Last, SleepsEnough;
      var choice := w.wait(step);
      step := step + 1;
      isCancelled := choice.WaitCancelled?;
      if choice.WaitRequest? && choice.req.Some? {
        Serve(choice.req.value);
      }
      Record(Waited(backoffSecs));
    }

    method BackOff()
      requires WaitsSince(log) > 0 && backoffSecs == Delay(WaitsSince(log) - 1)
      modifies this`backoffSecs
      ensures backoffSecs == Delay(WaitsSince(log))
    {
      DelayDoubles(WaitsSince(log) - 1);
      backoffSecs := Clamp(backoffSecs * 2);
    }

    /** A request while a session lives: it is answered, unless the session has to be given up. */
    method ServeInSession(req: Request, control: ClientControl.Control, cw: ClientControl.World, ghost failed: set<string>)
      returns (reconnect: Option<Pending>, ghost nowFailed: set<string>)
      requires Valid() && Accounted(multiset{}) && control.watch.Valid() && ClientControl.SleepsEnough(cw)
      requires Holds(control.tunnels.byName, cfg, failed)
      modifies this`cfg, this`received, this`replies, control.tunnels, control.watch
      ensures Valid() && control.watch.Valid() && received == old(received) + [req]
      ensures reconnect.Some? ==> reconnect.value.id == req.id && Accounted(multiset{req.id}) && replies == old(replies)
      ensures reconnect.None? ==> Accounted(multiset{}) && failed <= nowFailed
      ensures reconnect.None? ==> |replies| == |old(replies)| + 1 && replies[|old(replies)|].id == req.id
      ensures reconnect.None? ==> Holds(control.tunnels.byName, cfg, nowFailed)
      ensures reconnect.Some? <==>
                w.invalid(w.prepared(req.cfg)).None? && old(cfg).connection != w.prepared(req.cfg).connection
      ensures reconnect.Some? ==> forall n :: At(control.tunnels.byName, n)
                                           == if cw.closeFails(n).Some? then At(old(control.tunnels.byName), n) else map[]
      ensures reconnect.None? ==>
                (replies[|old(replies)|].result.Ok? <==> w.invalid(w.prepared(req.cfg)).None?)
      ensures var wanted := w.prepared(req.cfg);
              w.invalid(wanted).None? ==> cfg.connection == wanted.connection && ToMap(cfg.tunnels) == ToMap(wanted.tunnels)
    {
      hide Decision, ManagerFollows, Equivalent, LastValid, Proper, Delay, WaitsSince, LastLost, Last, SleepsEnough, FailedIn, Holds, Accounted, Last;
      hide ClientControl.SleepsEnough;
      Receive(req);
      ghost var before, held := cfg, control.tunnels.byName;
      var applied, plan := ApplyReload(req.cfg, control, cw);
      DecisionFacts(w, before, cfg, req.cfg, true, plan, applied);
      CurrentFollows(w, first, old(received), req, before, cfg, true, plan, applied);
      EquivalentIff(cfg, w.prepared(req.cfg));
      nowFailed := failed + FailedIn(applied);
      match applied {
        case ReplyWith(result) =>
          ManagerStaysCurrent(w, cw, before, cfg, req.cfg, plan, applied, held, control.tunnels.byName,
                              control.watch.ConfirmedNames(), failed);
          Send(req.id, result);
          reconnect := None;
        case Reconnect(outcome) =>
          ReconnectCloses(w, cw, before, cfg, req.cfg, plan, applied, held, control.tunnels.byName, control.watch.ConfirmedNames());
          reconnect := Some(Pending(req.id, outcome));
      }
    }

    /** run_session_loop: requests are applied to the session until it ends, one way or another.
        While it lives the manager holds the configuration in force on every name that never failed. */
    method RunSessionLoop(control: ClientControl.Control) returns (end: SessionLoopEnd, ghost failed: set<string>)
      requires Valid() && Accounted(multiset{}) && SessionIsReady(control, cfg)
      modifies this`cfg, this`received, this`replies, this`step, control.tunnels, control.watch
      ensures Valid() && step >= old(step)
      ensures Accounted(if end.ReloadReconnect? then multiset{end.pending.id} else multiset{})
      ensures end.Session? || end.Unfinished? ==> Holds(control.tunnels.byName, cfg, failed)
      ensures !end.Unfinished? ==> step > old(step)
      ensures end.Cancelled? <==> !end.Unfinished? && w.session(step - 1).SessionCancelled?
      ensures end.Session? <==> !end.Unfinished? && (w.session(step - 1).SessionDone? || w.session(step - 1) == SessionRequest(None))
      ensures end.Session? ==> end.end == w.ended(step - 1)
      ensures end.Cancelled? || end.ReloadReconnect? ==>
                forall n <- control.tunnels.byName :: w.control(step - 1).closeFails(n).Some?
      ensures end.Unfinished? ==> step >= limit
      ensures forall k :: old(step) <= k < (if end.Unfinished? then step else step - 1) ==>
                w.session(k).SessionRequest? && w.session(k).req.Some?
    {
      hide Decision, ManagerFollows, Equivalent, LastValid, Proper, Delay, WaitsSince, LastLost, Last, SleepsEnough, ClientControl.SleepsEnough, Accounted, Current, MayFollow;
      HoldsAtFirst(control.tunnels.byName, cfg);
      hide Holds;
      failed := {};
      while step < limit
        invariant Valid() && Accounted(multiset{}) && control.watch.Valid() && step >= old(step)
        invariant Holds(control.tunnels.byName, cfg, failed)
        invariant forall k :: old(step) <= k < step ==> w.session(k).SessionRequest? && w.session(k).req.Some?
        decreases limit - step
      {
        var choice := w.session(step);
        var cw := w.control(step);
        var ended := w.ended(step);
        WorldSleepsEnough(w, step);
        step := step + 1;
        match choice {
          case SessionCancelled =>
            ghost var held := control.tunnels.byName;
            control.CloseAllTunnels(cw, 0);
            AllClosed(cw, held, control.tunnels.byName);
            return Cancelled, failed;
          case SessionDone =>
            return Session(ended), failed;
          case SessionRequest(None) =>
            return Session(ended), failed;
          case SessionRequest(Some(req)) =>
            ghost var held := control.tunnels.byName;
            var reconnect, nowFailed := ServeInSession(req, control, cw, failed);
            if reconnect.Some? {
              AllClosed(cw, held, control.tunnels.byName);
              return ReloadReconnect(reconnect.value), failed;
            }
            failed := nowFailed;
        }
      }
      end := Unfinished;
    }

    /** What holds whenever the loop is left. */
    ghost predicate Finished(end: RunEnd)
      reads this
    {
      && Accounted(multiset{}) && Current() && Proper(log)
      && (!end.StillRunning? ==> pending.None? && multiset(RequestIds(received)) == multiset(ReplyIds(replies)))
    }

    /** A pending reply fails and the loop is left. */
    method Leave(reason: string, end: RunEnd)
      requires Accounted(multiset{}) && Current() && Proper(log)
      modifies this`pending, this`replies
      ensures Finished(end) && pending.None?
      ensures replies == old(replies) + match old(pending) case None => [] case Some(p) => [Reply(p.id, Err(reason))]
    {
      hide Proper, Equivalent;
      FailPending(reason);
    }

    /** Waits the current delay and doubles it, unless the client is stopped. */
    method WaitAndBackOff() returns (end: Option<RunEnd>)
      requires Valid() && Accounted(multiset{}) && MayFollow(Last(log), Waited(backoffSecs))
      modifies this
      ensures step > old(step) && (end.Some? ==> step == old(step) + 1)
      ensures if end.Some? then Finished(end.value) else Valid() && Accounted(multiset{})
      ensures end == if w.wait(old(step)).WaitCancelled? then Some(Stopped) else None
      ensures log == old(log) + [Waited(old(backoffSecs))] && Last(log) == Some(Waited(old(backoffSecs)))
    {
      hide Proper, Delay, WaitsSince, LastLost, Last, Equivalent, LastValid, SleepsEnough;
      var stop := WaitOrReload();
      if stop {
        Leave("client stopped during reconnect", Stopped);
        return Some(Stopped);
      }
      BackOff();
      end := None;
    }

    /** Connects: a session, a failed attempt, another round after a request, or the end. */
    method TryConnect() returns (r: Connected)
      requires Valid() && Accounted(multiset{}) && MayFollow(Last(log), Opening(sessionId))
      modifies this
      ensures step > old(step)
      ensures match w.connect(old(step))
              case ConnectCancelled => r == Over(Stopped)
              case ConnectRequest(_) => r == Again
              case Answered(NoAnswer) => r == if w.cancelled(old(step)) then Over(Stopped) else Failed
              case Answered(Rejected) => r == Over(if w.cancelled(old(step)) then Stopped else LoginRejected)
              case Answered(Accepted(id)) =>
                if forall k :: 0 <= k < |old(cfg).tunnels| ==> !ClientControl.Refused(old(cfg).tunnels[k], w.control(old(step)))
                then r.InSession? && r.id == id
                else r == if w.cancelled(old(step)) then Over(Stopped) else Failed
      ensures if r.Over? then Finished(r.end) && step == old(step) + 1 else Valid() && Accounted(multiset{})
      ensures log == old(log) + [Opening(old(sessionId))] + match r case Again => [Interrupted] case Failed => [Failure] case _ => []
      ensures Last(log) == Some(match r case Again => Interrupted case Failed => Failure case _ => Opening(old(sessionId)))
      ensures r.InSession? ==> SessionIsReady(r.control, cfg) && fresh(r.control) && fresh(r.control.tunnels) && fresh(r.control.watch)
    {
      hide Proper, Delay, WaitsSince, LastLost, Last, Equivalent, LastValid, SleepsEnough, Accounted, Current, ClientControl.SleepsEnough;
      Record(Opening(sessionId));
      var choice := w.connect(step);
      var isCancelled := w.cancelled(step);
      var cw := w.control(step);
      step := step + 1;
      match choice {
        case ConnectCancelled =>
          Leave("client stopped during reconnect", Stopped);
          return Over(Stopped);
        case ConnectRequest(req) =>
          if req.Some? {
            Serve(req.value);
          }
          Record(Interrupted);
          return Again;
        case Answered(Accepted(id)) =>
          var attempt := ClientControl.Control.Open(cfg.tunnels, cw);
          if attempt.Ok? {
            return InSession(attempt.value, id);
          }
        case Answered(_) =>
      }
      if isCancelled {
        Leave("client stopped during reconnect", Stopped);
        r := Over(Stopped);
      } else if choice.login.Rejected? {
        Leave("login rejected", LoginRejected);
        r := Over(LoginRejected);
      } else {
        Record(Failure);
        r := Failed;
      }
    }

    /** A session is established: the delays start again, and a pending reload is answered. */
    method Establish()
      requires Valid() && Accounted(multiset{}) && MayFollow(Last(log), Established)
      modifies this`backoffSecs, this`log, this`pending, this`replies
      ensures Valid() && Accounted(multiset{}) && pending.None? && log == old(log) + [Established] && Last(log) == Some(Established)
    {
      hide Proper, Delay, WaitsSince, LastLost, Last, Equivalent, LastValid, SleepsEnough, MayFollow, Accounted, Current;
      backoffSecs := RECONNECT_BASE_SECS;
      Record(Established);
      FirstDelay();
      AnswerPending();
    }

    /** The next login will present the session that was disconnected. */
    method Lose(how: Ending, id: string)
      requires Valid() && Accounted(multiset{}) && MayFollow(Last(log), Ended(how, id))
      modifies this`log, this`sessionId
      ensures Valid() && Accounted(multiset{}) && log == old(log) + [Ended(how, id)] && Last(log) == Some(Ended(how, id))
    {
      hide Proper, Delay, WaitsSince, LastLost, Last, Equivalent, LastValid, SleepsEnough, MayFollow;
      Record(Ended(how, id));
      if how.Dropped? {
        sessionId := id;
      }
    }

    /** What the end of a session means for the loop: it is left, it goes around at once, or it
        waits first. */
    method AfterSession(ending: SessionLoopEnd, id: string) returns (end: Option<RunEnd>)
      requires Valid() && pending.None? && Last(log) == Some(Established)
      requires Accounted(if ending.ReloadReconnect? then multiset{ending.pending.id} else multiset{})
      modifies this`pending, this`replies, this`log, this`sessionId
      ensures if end.Some? then Finished(end.value) else Valid() && Accounted(multiset{})
      ensures pending == (if ending.ReloadReconnect? then Some(ending.pending) else None) && replies == old(replies)
      ensures end == match ending
                     case Unfinished => Some(StillRunning)
                     case Cancelled => Some(Stopped)
                     case ReloadReconnect(_) => None
                     case Session(Kicked) => Some(KickedOut)
                     case Session(_) => if w.cancelled(step) then Some(Stopped) else None
      ensures end.Some? ==> log == old(log)
      ensures var how := if ending.ReloadReconnect? then ForReload else if ending == Session(Disconnected) then Dropped else InError;
              end.None? ==> log == old(log) + [Ended(how, id)] && Last(log) == Some(Ended(how, id))
    {
      hide Proper, Delay, WaitsSince, LastLost, Last, Equivalent, LastValid, SleepsEnough, Accounted, Current, MayFollow;
      MayEnd(log);
      end := None;
      match ending {
        case Unfinished => end := Some(StillRunning);
        case Cancelled =>
          Leave("client stopped during reconnect", Stopped);
          end := Some(Stopped);
        case ReloadReconnect(p) =>
          KeepPending(p);
          Lose(ForReload, id);
        case Session(Kicked) =>
          Leave("kicked by server", KickedOut);
          end := Some(KickedOut);
        case Session(Disconnected) =>
          if w.cancelled(step) {
            Leave("client stopped during reconnect", Stopped);
            end := Some(Stopped);
          } else {
            Lose(Dropped, id);
          }
        case Session(Broken) =>
          if w.cancelled(step) {
            Leave("client stopped during reconnect", Stopped);
            end := Some(Stopped);
          } else {
            Lose(InError, id);
          }
      }
    }

    /** From an established session to its end, and whether a reload asked to connect anew. */
    method LiveSession(control: ClientControl.Control, id: string) returns (end: Option<RunEnd>, again: bool)
      requires Valid() && Accounted(multiset{}) && SessionIsReady(control, cfg) && MayFollow(Last(log), Established)
      modifies this, control.tunnels, control.watch
      ensures step >= old(step)
      ensures end.None? ==> exists how :: Last(log) == Some(Ended(how, id)) && (again <==> how.ForReload?)
      ensures if end.Some? then Finished(end.value) && Why(w, end.value, step, limit) else Valid() && Accounted(multiset{})
      ensures again ==> pending.Some?
    {
      hide Valid, Finished, Accounted, SessionIsReady;
      Establish();
      var ending, _ := RunSessionLoop(control);
      end := AfterSession(ending, id);
      again := ending.ReloadReconnect?;
      if end.None? && !again {
        Drain();
      }
    }

    /** One round of the loop: a login, a session if it is answered with one, and the wait if one is due. */
    method Round() returns (end: Option<RunEnd>)
      requires Valid() && Accounted(multiset{}) && MayFollow(Last(log), Opening(sessionId)) && step < limit
      modifies this
      ensures if end.Some? then Finished(end.value) && Why(w, end.value, step, limit)
              else Valid() && Accounted(multiset{}) && MayFollow(Last(log), Opening(sessionId)) && step > old(step)
      ensures w.cancelled(old(step)) ==> end == Some(Stopped) && step == old(step) && log == old(log) && pending.None?
    {
      hide Proper, Delay, WaitsSince, LastLost, Last, Equivalent, LastValid, SleepsEnough, Accounted, Current, SessionIsReady;
      if w.cancelled(step) {
        Leave("client stopped during reconnect", Stopped);
        return Some(Stopped);
      }
      Drain();
      var connected := TryConnect();
      match connected {
        case Over(e) => return Some(e);
        case Again => return None;
        case Failed =>
        case InSession(control, id) =>
          var again;
          end, again := LiveSession(control, id);
          if end.Some? || again {
            return;
          }
      }
      end := WaitAndBackOff();
    }

    /** Service::run, followed for `limit` steps. When it returns, every request received was
        answered exactly once; until then at most one waits in the slot. Every wait and every login
        is what the history calls for, and the end is what the last step calls for. */
    method Run() returns (end: RunEnd)
      requires Valid() && Accounted(multiset{}) && pending.None? && log == []
      modifies this
      ensures Current() && Proper(log)
      ensures Why(w, end, step, limit)
      ensures w.cancelled(old(step)) && old(step) < limit ==> end == Stopped && log == []
      ensures !end.StillRunning? ==> pending.None? && multiset(RequestIds(received)) == multiset(ReplyIds(replies))
    {
      hide Proper, Delay, WaitsSince, LastLost, Last, Equivalent, LastValid, SleepsEnough, Accounted, Current;
      NothingYet(log);
      while step < limit
        invariant Valid() && Accounted(multiset{}) && MayFollow(Last(log), Opening(sessionId))
        invariant (step == old(step) && log == []) || !w.cancelled(old(step))
        decreases limit - step
      {
        var over := Round();
        if over.Some? {
          return over.value;
        }
      }
      end := StillRunning;
    }
  }

  /** What must have been seen for the loop to end so, at the last step before k or at k itself. */
  predicate Why(w: World, end: RunEnd, k: nat, limit: nat) {
    match end
    case StillRunning => k >= limit
    case Stopped => w.cancelled(k) || (k > 0 && CancelSeen(w, k - 1))
    case LoginRejected => k > 0 && w.connect(k - 1) == Answered(Rejected)
    case KickedOut => k > 0 && w.ended(k - 1).Kicked? && (w.session(k - 1).SessionDone? || w.session(k - 1) == SessionRequest(None))
  }

  predicate CancelSeen(w: World, k: nat) {
    w.cancelled(k) || w.connect(k).ConnectCancelled? || w.wait(k).WaitCancelled? || w.session(k).SessionCancelled?
  }

  datatype Connected = Over(end: RunEnd) | Again | Failed | InSession(control: ClientControl.Control, id: string)

  ghost predicate SessionIsReady(control: ClientControl.Control, cfg: ClientConfig)
    reads control.watch, control.tunnels
  {
    control.watch.Valid() && control.tunnels.byName == ToMap(cfg.tunnels)
  }

  lemma AllClosed(cw: ClientControl.World, before: TunnelMap, after: TunnelMap)
    requires forall n :: At(after, n) == if cw.closeFails(n).Some? then At(before, n) else map[]
    ensures forall n <- after :: cw.closeFails(n).Some?
  {
    forall n <- after ensures cw.closeFails(n).Some? {
      assert n in At(after, n);
    }
  }

  lemma MayEnd(log: seq<Event>)
    ensures Last(log) == Some(Established) ==> forall how, id :: MayFollow(Last(log), Ended(how, id))
  {
  }

  lemma NothingYet(log: seq<Event>)
    ensures log == [] ==> Last(log).None?
  {
  }

  lemma FirstDelay()
    ensures Delay(0) == RECONNECT_BASE_SECS
  {
  }

  lemma HoldsAtFirst(held: TunnelMap, cfg: ClientConfig)
    requires held == ToMap(cfg.tunnels)
    ensures Holds(held, cfg, {})
  {
  }

  lemma DelayDoubles(k: nat)
    ensures 1 <= Delay(k) && Delay(k + 1) == Clamp(Delay(k) * 2)
    ensures Delay(0) == 1 && Delay(k + 1) == if Delay(k) * 2 > 60 then 60 else Delay(k) * 2
  {
    PowerIsPositive(k);
  }

  lemma PowerIsPositive(k: nat)
    ensures Power(k) >= 1
  {
  }

  lemma WorldSleepsEnough(w: World, k: nat)
    requires SleepsEnough(w)
    ensures ClientControl.SleepsEnough(w.control(k))
  {
  }
}
