# Orbien: a verified model of the tunnel protocol core

Orbien is a reverse proxy: a client logs in to a server, leases tunnel names and public ports, and the
server routes traffic back over data connections. This project models its hard logic in Dafny and proves
what it is meant to keep. `dafny verify dfyconfig.toml` checks everything.

The code that changes things step by step is modelled as classes and methods with loops, proved against
specification functions; the concurrent parts are transition systems whose theorems hold for every
interleaving; pure code is functions with lemmas.

**Sessions** (`SessionTable`, `SessionProtocol`, `SessionSafety`, `SessionTheorems`, `SessionOutcomes`). The server's map from
session id to control, with a gate stored in each entry. `SessionProtocol` has one step for each lock section
or await point of a login, a kick and a data-connection lookup, an explicit holder for each gate, and a
program counter for each task. Any control may be signalled closed at any time. A login may find the agent
index unwilling and an acknowledgement may fail to be written; both are free choices. Generations are handed
out in order but installed in any order. `SessionSafety.Inv` is the invariant. The effects of the lock sections
on the map are functions that the methods of `SessionTable.Sessions` and the steps of the protocol share.
`SessionOutcomes` says what kicks, lookups, logins and ends of connections bring about.

**Leases** (`LeaseTables`, `LeaseProtocol`, `LeaseSafety`, `LeaseTheorems`, `LeaseReclaim`,
`LeaseOutcomes`). The global tables of
names and ports and each control's tunnels. One reader task for each control handles NewTunnel and CloseTunnel
in sequence while a shutdown may drain the same control and other calls of shutdown wait for it; when nobody has
the control any more, its `Drop` releases what is left unless `finished` was stored. `finished` is a watch channel
without a standing receiver, so storing it takes effect only while somebody waits. The proofs use a ledger: where
in its program each control holds each name and port. TCP and UDP have a table each in the server; here one table is keyed by
protocol and port, which is the same thing. The two transition systems are separate: in the lease system
`closed` may be set at any moment, which covers every step of the session system that sets it. `LeaseOutcomes`
says what closing and registering a tunnel bring about.

**Agents** (`AgentRegistry`, `AgentIdentity`, `AgentProtocol`, `AgentOnline`). Two maps updated together, with
protection against stale generations. `AgentIdentity` says what a key is in terms of user and id.
`AgentProtocol` runs them inside the session protocol: the index then decides whether a login goes online, and
the releases after a kick or a clean-up come at any later moment.

**Bandwidth** (`TokenBucket`, `LimitedStream`). The token bucket over real numbers, and the poll state machines
for reads, writes and flushes. The inner stream and the clock are classes that answer arbitrarily.

**HTTP routing** (`Lex`, `HttpGw`, `HttpTunnel`, `LeaseRoutes`). Sorted lists that stand in for longest-prefix match,
and the registration of one tunnel's domains and locations while other tunnels change the same table in between; a
ghost log of the gateway's lock sections says what each registration met. The gateway removes routes by tunnel name
alone, so `LeaseRoutes` runs it inside the lease system: a tunnel registers its routes while its control holds the
name, and its routes are removed before any of its leases is released.

**PROXY header** (`ProxyText`, `ProxyProtocol`). The printer and the parser of The PROXY protocol, Versions 1 & 2
(sections 2.1 and 2.2).

**Placeholders** (`EnvPlaceholders`). `{{env.NAME:default}}` in configuration text.

**Client** (`Sorting`, `ReloadPlan`, `ClientControl`, `ClientService`). The difference of two configurations, its
application to a live session while the server's answers come in, and the reconnect loop. The outside world is a
value (`World`) that says which writes fail, which answers and requests arrive at each await point and what the
clock shows; the loop is followed for an arbitrary number of steps.

**Counters** (`WindowedCounters`) and **logins** (`Replay`, in `ReplayCache.dfy`, and `AuthToken`). Bounded
structures proved against the unbounded history of the calls they were given. `Primitives` and `Wrappers` hold
the number types and the option and result types that several modules use.

## What turned out not to hold

Each is shown with a concrete case or the exact input that fails, and with the exact condition under which the
code does meet the property.

- A registration that has passed the `closed` check can still be inserted after a shutdown has drained the
  control. Once shutdown and reader have ended, such a name is left behind for good - no step of anybody ever gives
  it back - exactly when it is in the manager and `finished` was stored (`LeaseReclaim.LeftBehindIsForever`);
  otherwise `Drop` can still give everything back (`DropGivesBack`). `LateRunLeavesAName` is a concrete run that
  loses a name and a port. When the drain begins, the control can still come to that by its own steps exactly when
  a registration is in flight past the check whose name is not empty and free or its own, and whose port is free
  or its own (`LateRegistrationIsLeftBehind`).
- When a session changes its agent id, an online agent can drop out of the session index
  (`AgentRegistry.ChangedIdentityOrphans`). A login keeps every online agent indexed exactly when the last session
  of its own agent is not in use for another agent (`LoginKeepsOnlineIndexedIff`).
- The agent of a current, acknowledged control can go offline without its own release: a session without an agent
  id is not tested for conflicts, so if its key is that of another session it takes the entry over
  (`AgentOnline.CollisionTakesOver` is the run). With one identity for each session, every such agent stays online
  over all runs exactly when no session without an agent id shares its key with another (`AgentsStayOnlineIff`).
- Agents of two users can have one key, and so be refused or displaced for each other, where a user has a dot in its
  name (`AgentIdentity.DottedUsersCollide`) or is empty (`KeysOfParts`). `KeysCollideIff` says exactly when; between
  users that are not empty and have no dot it never happens (`KeysAreEqualIff`, `UsersDoNotInterfere`).
- A flush between a pending write and the next poll can make the same bytes go out twice. After a poll that was
  pending and any flushes without a failed write, what the next poll reports has gone out once exactly when the
  write is still in flight at that call (`LimitedStream.LimitedStream.PollAgain`), which only a pending flush leaves
  so (`PollFlush`); with one flush in between, exactly when it never came to flushing the inner stream
  (`FlushBetweenPolls`). Over any number of polls and flushes of a caller the bytes reported are the bytes sent
  exactly when no flush sent a write in flight to its end (`WriteWithFlushes`).
- The parser's complaint about a line without an end can be taken back by more bytes
  (`ProxyProtocol.NoCrlfIsNotFinal` gives such a buffer). A verdict is final, whatever follows, exactly when it is
  neither that nor Incomplete (`FinalIff`).
- The skew check of a login subtracts in 64 bits. Where that wraps, as release builds do, it also passes for a
  difference of exactly 2^63 either way and at the far ends of the range (`AuthToken.SkewCheckMeans`; the input of
  `SkewCheckOverflowExample` is one).
- An hour counter cuts the time to the start of the local hour, or leaves it as it is if the clock shows that hour
  start twice or never. It can show what was added earlier in the slot of a later time: where an offset changes by
  half an hour (`WindowedCounters.HalfHourShiftFails`), and in any zone that puts its clock back by one hour, during
  the hour that comes twice (`FallBackFails`). A call is in step when it comes at or before the latest time seen, or a
  whole number of hours after it. After every call of a history the window stands at the latest time, with one slot
  for each hour passed, exactly when all calls are in step (`WindowFollowsTheLatest`); all slots are right after all
  calls, whatever is added, exactly when every call after the first is (`SumsAreRightIff`). In zones that shift by
  whole hours, a time is cut to an hour of the zone exactly when its hour start resolves or it is one itself
  (`TruncatedToTheHourIff`), and calls whose hour starts resolve are in step (`WholeHourShiftsAreInStep`).

## Model

| member | source | states |
|---|---|---|
| SessionTable.Sessions.Install | server/src/service/session_table.rs:13-46 | the section under the gate: a stale gate changes nothing and asks for a retry, otherwise exactly this entry is replaced and the control it replaced is handed back |
| SessionTable.Sessions.RemoveIfSame | server/src/service/session_table.rs:48-73 | the entry goes exactly when it is still this control's; every other entry stays |
| SessionSafety.StepKept | server/src/service/session_registry.rs:97-163 | one step of any login, kick, lookup or close keeps the invariant |
| SessionSafety.RunKept | server/src/service/session_registry.rs:97-163 | every interleaving of any length keeps the invariant |
| SessionTheorems.AtMostOneAccepting | server/src/service/session_registry.rs:97-140 | in every reachable state each session id has at most one control that is activated and not closed |
| SessionTheorems.AckAfterOldIsClosed | server/src/control/session/mod.rs:168-182 | while a login is acknowledged no other control of its session accepts; the replaced one is closed by then |
| SessionTheorems.LookupFindsTheAccepting | server/src/service/session_table.rs:75-93 | a lookup under the gate hands out its control exactly if that control accepts, and if any control of the session accepts then only that one |
| SessionTheorems.EntryStaysWhileGuarded | server/src/service/session_table.rs:18-46 | from the swap until the guard is dropped the entry of the session is this control under this gate |
| SessionTheorems.EntryChangesUnderItsGate | server/src/service/session_table.rs:18-73 | an entry changes only by a step of the task that holds the gate stored in it |
| SessionTheorems.ExitIsFinal | server/src/service/session_table.rs:48-73 | a control that has left the map never comes back and the way it left stays settled |
| SessionTheorems.OneWinner | server/src/service/mod.rs:187-226 | of a replacement, the clean-up at the end of the connection and any number of kicks at most one removes a control, and once its login has ended exactly one has |
| SessionTheorems.NoDeadlock | server/src/service/session_table.rs:18-46 | every unfinished task can move, or the holder of the gate it awaits can |
| SessionTheorems.StepsMove | server/src/service/session_registry.rs:97-163 | a step of a task always moves its program counter or its lock |
| SessionOutcomes.KickTakesEffectIff | server/src/service/mod.rs:187-226 | over every run, whatever others do after a kick has got its gate: when the kick is over it has succeeded if and only if its target was then the current control of the session, and in that case the target is closed, out of the table for good, and on record as kicked by this kick |
| SessionOutcomes.KickCanFinish | server/src/service/mod.rs:187-226 | a kick that has its gate can always finish by its own steps |
| SessionOutcomes.KickAlone | server/src/service/mod.rs:187-226 | undisturbed, from its start: the control in the table is closed, taken out and recorded as kicked, and nothing else changes; without one the kick fails and changes nothing |
| SessionOutcomes.LookupAnswersTruly | server/src/service/session_table.rs:75-93 | whatever others do while a lookup has its gate, what it finds served the session at some moment meanwhile, and a control that serves all the while is found |
| SessionOutcomes.LookupAlone | server/src/service/session_table.rs:75-93 | undisturbed, a lookup finds the control in the table exactly if it was activated and is not closed, and changes nothing |
| SessionOutcomes.LoginAlone | server/src/service/session_registry.rs:97-163 | an undisturbed login that is accepted and acknowledged leaves its control in the table, activated and not closed; the one that was there is closed and on record as replaced; nothing else changes |
| SessionOutcomes.FailedLoginAlone | server/src/service/session_registry.rs:97-163 | a login that the agent index refuses, or whose acknowledgement cannot be written, ends closed, never activated and out of the table, with the control it replaced closed all the same |
| SessionOutcomes.ConnectionEndsAlone | server/src/service/session_table.rs:48-73 | the end of a connection closes its control, and takes it out of the table exactly if it is still there |
| SessionOutcomes.EndedLoginsAreOut | server/src/service/session_registry.rs:97-163 | in every reachable state a login that has run to its end has its control closed and out of the table |
| LeaseTables.TunnelRegistry.TryInsert | server/src/tunnel/registry.rs:18-33 | a name is entered exactly when it is non-empty and free |
| LeaseTables.TunnelRegistry.RemoveIfOwner | server/src/tunnel/registry.rs:35-40 | a name goes only from its own session and generation |
| LeaseTables.PortTable.Claim | server/src/tunnel/ports.rs:14-26 | a port is entered exactly when it is not zero and free |
| LeaseTables.PortTable.Release | server/src/tunnel/ports.rs:28-33 | a port goes only from its own tunnel name |
| LeaseTables.Control.ReleaseGlobalSlot | server/src/control/session/mod.rs:198-207 | frees the port under that name and the name under that owner, and nothing else |
| LeaseTables.Control.Detach | server/src/control/session/mod.rs:209-217 | tunnel, name and port go together; all others stay |
| LeaseTables.Control.Register | server/src/control/session/register.rs:120-169 | undisturbed, either name, port and tunnel are all entered or none is, and exactly when |
| LeaseSafety.StepKept | server/src/control/session/register.rs:65-118 | every step of reader, shutdown, waiting and Drop keeps the ledger: each name and port has one holder, found where its control's program says |
| LeaseSafety.RunKept | server/src/control/session/register.rs:65-118 | every interleaving of registrations, closes, shutdowns and drops keeps it |
| LeaseTheorems.ForeignLeasesKept | server/src/tunnel/ports.rs:28-33 | no step of a control frees or takes a name or port of another control or generation |
| LeaseTheorems.ExactlyOneHolder | server/src/control/session/register.rs:65-147 | a registered name is in exactly one of the managed tunnels, the reader's hands and the list being drained or dropped of its owner, and a port goes with the name it is entered under |
| LeaseTheorems.ReleasesHitTheirOwn | server/src/control/session/mod.rs:198-207 | the name test of a port release and the owner test of a name release never refuse |
| LeaseTheorems.AlreadyPresentIsUnreachable | server/src/control/session/register.rs:96-118 | the insertion never finds the name already present in the session |
| LeaseReclaim.ShutdownReclaims | server/src/control/session/mod.rs:326-361 | a shutdown that starts to drain with no registration in flight leaves every drained name and port free or with another owner, and once the reader rests no name and no port under its owner |
| LeaseReclaim.LeftBehindIsTheManager | server/src/control/session/mod.rs:326-361 | after shutdown and reader have ended, what is left under the owner is exactly the tunnels in the manager, until Drop takes them out |
| LeaseReclaim.DropGivesBack | server/src/control/session/mod.rs:431-443 | unless `finished` was stored, the waiting calls can return and Drop can then give back every name the control still has |
| LeaseReclaim.LeftBehindIsForever | server/src/control/session/mod.rs:152-166 | after shutdown and reader have ended, a name stays under its owner whatever anybody does if and only if it is in the manager and `finished` was stored |
| LeaseReclaim.LateRegistrationIsLeftBehind | server/src/control/session/register.rs:53-118 | when the drain begins, steps of the control alone can end with a tunnel left behind for good if and only if a registration is in flight with a non-empty name and a port that are free or its own |
| LeaseReclaim.LateRunLeavesAName | server/src/control/session/mod.rs:326-361 | one concrete run: a late registration, a second shutdown that waits, and a Drop that leaves a name and a port to nobody |
| LeaseOutcomes.CloseReleases | server/src/control/session/register.rs:312-317 | from any reachable state, whatever others and shutdowns of the control do: once the reader has come back from CloseTunnel, the control has no such tunnel and does not own the name, and the port the tunnel had is free or entered under a name the control does not own |
| LeaseOutcomes.CloseCanFinish | server/src/control/session/register.rs:312-317 | the control can always come back from CloseTunnel by its own steps |
| LeaseOutcomes.CloseAlone | server/src/control/session/mod.rs:198-217 | undisturbed, CloseTunnel takes tunnel, port and name away and nothing else; without such a tunnel it changes nothing |
| LeaseOutcomes.RegisterAlone | server/src/control/session/register.rs:65-118 | undisturbed, NewTunnel first takes the control's older tunnel of that name away; then name, port and tunnel are entered exactly if the name is not empty and free, the port is free and the tunnel starts, and else none of them; a closed control and an invalid port change nothing |
| AgentRegistry.Registry.TryOnline | server/src/service/agent_registry.rs:54-133 | fails exactly on a conflict and then changes nothing; otherwise the two maps are those of the specification |
| AgentRegistry.Registry.Release | server/src/service/agent_registry.rs:135-157 | retires the entry and the index only for the current session and generation |
| AgentRegistry.IndexIsSound | server/src/service/agent_registry.rs:54-157 | after any logins and releases every indexed session points at an online entry that carries it, and no two sessions at one |
| AgentRegistry.LoginSeatsItsAgent | server/src/service/agent_registry.rs:54-133 | an accepted login is online and indexed; of the other agents online under its session exactly the one the session was indexed to goes offline, so none is left if every online agent was indexed |
| AgentRegistry.ReleaseNeedsTheGeneration | server/src/service/agent_registry.rs:135-157 | a stale generation changes nothing; the current one takes the agent offline and out of the index |
| AgentRegistry.LoginKeepsOnlineIndexedIff | server/src/service/agent_registry.rs:54-133 | a login keeps every online entry indexed exactly when the last session of its agent is not in use for another agent |
| AgentRegistry.FixedIdentityIndexesEveryOnline | server/src/service/agent_registry.rs:54-157 | with one identity for each session id every online entry is indexed, over all histories |
| AgentRegistry.ChangedIdentityOrphans | server/src/service/agent_registry.rs:54-157 | three logins after which an online entry is indexed by nobody and its release does nothing |
| AgentIdentity.KeysOfParts | server/src/service/agent_registry.rs:176-182 | without a user the key is the id; an agent without an id is known by its session |
| AgentIdentity.KeysAreEqualIff | server/src/service/agent_registry.rs:176-182 | for users that are not empty and have no dot and ids that are not empty, two keys are equal if and only if both user and id are |
| AgentIdentity.KeysCollideIff | server/src/service/agent_registry.rs:176-182 | for any two non-empty pairs, exactly when the keys are equal: the pairs are, or the longer user is the shorter one, a dot and something with which the other id begins |
| AgentIdentity.DottedUsersCollide | server/src/service/agent_registry.rs:176-182 | user a.b with id c and user a with id b.c have one key |
| AgentIdentity.RefusedIff | server/src/service/agent_registry.rs:67-76 | after any run of logins of users without a dot, a login is refused if and only if it has an agent id and an agent of the same user and of that very id is online in another session |
| AgentIdentity.UsersDoNotInterfere | server/src/service/agent_registry.rs:54-133 | after any such run, with one user for each session, no login changes or unseats an agent of another user |
| AgentIdentity.LoginRecords | server/src/service/agent_registry.rs:93-132 | an accepted login records the agent as it described itself, online, with the number of tunnels it had before |
| AgentIdentity.ReleaseRecords | server/src/service/agent_registry.rs:135-174 | a release keeps an agent with an id on record as offline and forgets one without; all others stay |
| AgentProtocol.JointRunKept | server/src/service/session_registry.rs:97-163 | every interleaving of logins, kicks, clean-ups and late releases keeps the session invariant, the index sound, and each online agent accounted for |
| AgentProtocol.OnlineAgentsAreAccountedFor | server/src/service/mod.rs:187-226 | an online agent carries the generation of the current control of its session, or of one whose release is still to come, or of one that the current control is just replacing |
| AgentOnline.AgentsStayOnlineIff | server/src/service/agent_registry.rs:54-133 | over all runs every acknowledged control that has not been removed has its agent online under its generation, if and only if no session without an agent id shares its key with another |
| AgentOnline.CollisionTakesOver | server/src/service/agent_registry.rs:67-76 | a run in which a session without an agent id takes over the entry of a current, acknowledged control |
| AgentOnline.CollisionFreeIff | server/src/service/agent_registry.rs:54-62 | for users without a dot, no key is shared so if and only if no session without an agent id is itself the agent id of another session of its user |
| TokenBucket.NetIsPaidFor | core/src/limit/token_bucket.rs:36-95 | over any run tokens stay between zero and the burst, and net grants are at most the tokens used up and the elapsed time times the bytes per second |
| TokenBucket.WindowBound | core/src/limit/token_bucket.rs:36-95 | between any two instants all users together are granted at most bytes + (t2 - t1) * bytes |
| TokenBucket.BandwidthLimiter.GrantsAreBounded | core/src/limit/token_bucket.rs:36-95 | the same for the turns a limiter has really taken, whatever calls were made by whomever |
| TokenBucket.TakeMeans | core/src/limit/token_bucket.rs:36-52 | the bucket holds what it had and the elapsed time times the rate, up to the burst; a request is granted exactly if that covers it and takes just what it asks |
| TokenBucket.ReturnMeans | core/src/limit/token_bucket.rs:54-61 | and a return adds to that, up to the burst |
| TokenBucket.GrantedIff | core/src/limit/token_bucket.rs:88-95 | a request within the burst is granted if and only if the bucket was left alone for as long as the missing tokens take at the rate |
| TokenBucket.FullAfterASecond | core/src/limit/token_bucket.rs:88-95 | a bucket left alone for a second grants any request within the burst |
| TokenBucket.BandwidthLimiter.TryWaitN | core/src/limit/token_bucket.rs:36-52 | all or nothing, never more than the burst, one turn at the bucket; `TakeMeans` says which |
| TokenBucket.BandwidthLimiter.ReturnN | core/src/limit/token_bucket.rs:54-61 | gives back up to the burst |
| TokenBucket.BandwidthLimiter.WaitN | core/src/limit/token_bucket.rs:63-87 | of the turns taken at the limiter during the call, this user's own are granted exactly n, in the least number of grants of at most the burst; the clock sleeps once for each of its refusals, for at most a second, at most one for each grant and each turn of the others |
| LimitedStream.LimitedStream.PollRead | core/src/limit/stream.rs:67-166 | returns the next bytes in order, is empty only on the inner end of file, fails only with the inner stream, and is pending if and only if the inner stream or a wait answered so in this call; bytes held come out at once when their tokens are there; tokens spent equal bytes delivered plus bytes held ready |
| LimitedStream.LimitedStream.ReadMany | core/src/limit/stream.rs:67-166 | over any number of reads of any sizes, bytes returned followed by bytes held are the bytes taken |
| LimitedStream.LimitedStream.PollWrite | core/src/limit/stream.rs:169-262 | terminates, is pending if and only if the inner stream or a wait was, fails only with the inner stream, keeps the write in flight a prefix of what was asked, and reports it only once it is out in full |
| LimitedStream.LimitedStream.WriteMany | core/src/limit/stream.rs:169-262 | a caller that re-polls with what is left gets exactly the reported bytes to the inner stream, once and in order, and when it fails a prefix of its data no shorter than what was reported |
| LimitedStream.LimitedStream.PollFlush | core/src/limit/stream.rs:264-273 | a successful flush leaves nothing pending; any other leaves the write in flight as it was with the inner stream not flushed, or sent in full, or lost with a part of it sent; it is pending or failed if and only if the inner stream or a wait was |
| LimitedStream.LimitedStream.PollAgain | core/src/limit/stream.rs:169-183 | after a pending poll and any flushes without a failed write, what the next poll reports has gone out once if and only if the write is still in flight at the call, else what was taken goes out again |
| LimitedStream.LimitedStream.FlushBetweenPolls | core/src/limit/stream.rs:169-273 | whatever the flush between Pending and the next poll answers, unless a write fails, the reported bytes go out once if and only if it did not come to flushing the inner stream, and only a pending flush does not |
| LimitedStream.LimitedStream.WriteWithFlushes | core/src/limit/stream.rs:169-273 | over any polls and flushes of a caller that writes what is left, the bytes reported are the bytes sent if and only if no flush sent a write in flight to its end |
| HttpGw.Gateway.Register | server/src/tunnel/gw.rs:31-53 | fails exactly on an empty host or another tunnel's route there, with the error that says which, changing nothing; otherwise exactly this route is put in, and lists stay sorted and free of duplicates |
| HttpGw.Gateway.UnregisterTunnel | server/src/tunnel/gw.rs:55-61 | exactly this tunnel's routes go, and no empty list stays |
| HttpGw.Gateway.Lookup | server/src/tunnel/gw.rs:63-78 | finds the longest registered location that is a prefix of the path, or none exists |
| HttpGw.FirstHitIsLongest | server/src/tunnel/gw.rs:70-78 | the first prefix in descending byte order is strictly longer than any other registered prefix |
| HttpGw.LongestMatchIsUnique | server/src/tunnel/gw.rs:63-78 | there is one longest match |
| HttpGw.PushAndSort | server/src/tunnel/gw.rs:31-53 | pushing a new location and sorting adds just that route and keeps the order |
| HttpGw.RoutesDetermineTheTable | server/src/tunnel/gw.rs:31-61 | tables with the same routes are equal, whatever the order of registration |
| HttpGw.FreeMeans | server/src/tunnel/gw.rs:31-43 | a route is free on a host that has a name, where no other tunnel has its location |
| HttpGw.RegistrationMeans | server/src/tunnel/gw.rs:31-53 | the list of the host then holds the route and its other locations' routes, and every other host's list is the same |
| HttpGw.UnregistrationMeans | server/src/tunnel/gw.rs:55-61 | each host keeps exactly the routes of other tunnels, and no empty list |
| HttpTunnel.Register | server/src/tunnel/http.rs:24-74 | of the lock sections taken on the gateway during the call, with other tunnels in between any two, this tunnel's registrations try its routes in order; it succeeds exactly when all were tried and each was free at its own section, and ends with exactly domains times locations or with nothing; undisturbed it succeeds exactly when all are free and touches nobody else |
| HttpTunnel.AskedAt | server/src/tunnel/http.rs:36-60 | domain by domain, each with every location in order |
| HttpTunnel.OthersLeaveOwnRoutes | server/src/tunnel/gw.rs:31-61 | whatever other tunnels register or unregister, a tunnel's routes stay |
| HttpTunnel.RegisterTouchesOwn | server/src/tunnel/gw.rs:31-53 | a registration leaves every other tunnel's routes as they were |
| HttpTunnel.Tunnel.Shutdown | server/src/tunnel/http.rs:76-95 | the first close removes the routes, later ones do nothing |
| LeaseRoutes.JointRunKept | server/src/control/session/register.rs:224-266 | every interleaving of lease steps and gateway sections of all controls keeps the ledger, and each tunnel's routes under its control's name |
| LeaseRoutes.RoutesBelongToTheLeaseholder | server/src/tunnel/http.rs:38-58 | over all such runs every route in the gateway was put there by the control that has its tunnel name now, and a free name has no routes |
| LeaseRoutes.OnlyTheLeaseholderChangesRoutes | server/src/tunnel/http.rs:76-95 | the routes of a name change only by a gateway section of the control that has the name, although the gateway tests the name alone |
| LeaseRoutes.RegisteredRouteStays | server/src/tunnel/gw.rs:31-53 | a route that a tunnel registers where no other tunnel has its location is in the gateway from then on, whatever other controls do, until its own control clears it or puts another in its place |
| LeaseRoutes.RoutesCanBeRemoved | server/src/tunnel/manager.rs:76-113 | where the leases of a tunnel cannot be released yet because its routes are still there, removing them is possible |
| ProxyProtocol.BuildV2 | core/src/net/proxy_protocol.rs:50-91 | the pushes build the header of the specification function |
| ProxyProtocol.RoundTripV1 | core/src/net/proxy_protocol.rs:35-48 | a version 1 header followed by any bytes parses to its addresses and exact length; mixed families give the loopback with the port kept |
| ProxyProtocol.RoundTripV2 | core/src/net/proxy_protocol.rs:50-91 | the same for version 2 |
| ProxyProtocol.PrefixV1IsIncomplete | core/src/net/proxy_protocol.rs:109-176 | every strict prefix of a version 1 header is incomplete |
| ProxyProtocol.PrefixV2IsIncomplete | core/src/net/proxy_protocol.rs:109-241 | every strict prefix of a version 2 header is incomplete |
| ProxyProtocol.HeaderFitsTheBuffer | core/src/net/proxy_protocol.rs:109-241 | a parsed header never claims more than the buffer holds |
| ProxyProtocol.HeaderV1InFull | core/src/net/proxy_protocol.rs:35-48 | the text of a version 1 header, loopback substituted where the families differ |
| ProxyProtocol.HeaderV2InFull | core/src/net/proxy_protocol.rs:50-91 | every byte of a version 2 header, loopback substituted where the families differ |
| ProxyProtocol.NotProxyIff | core/src/net/proxy_protocol.rs:109-142 | a buffer is not a header if and only if it goes on otherwise than both beginnings a header can have |
| ProxyProtocol.VerdictV1 | core/src/net/proxy_protocol.rs:144-176 | the verdict on every buffer that begins like version 1, by its first line end and the words before it |
| ProxyProtocol.VerdictV2 | core/src/net/proxy_protocol.rs:178-241 | the verdict on every buffer that begins like version 2: versions, commands (LOCAL stands for no address), families, short blocks and longer ones |
| ProxyProtocol.VerdictsAreFinal | core/src/net/proxy_protocol.rs:109-241 | Done, NotProxy and every error but a missing line end never change as the buffer grows |
| ProxyProtocol.FinalIff | core/src/net/proxy_protocol.rs:109-241 | a verdict stands whatever bytes follow if and only if it is neither Incomplete nor the complaint about a line without an end |
| ProxyProtocol.NoCrlfIsNotFinal | core/src/net/proxy_protocol.rs:144-176 | a concrete buffer whose missing-line-end error turns into a parsed header two bytes later |
| ProxyText.IpReadsBack | core/src/net/proxy_protocol.rs:144-176 | a printed address reads back as itself |
| ProxyText.V4TextIff | core/src/net/proxy_protocol.rs:167-168 | the text of an IPv4 address is read as it, and no other text is |
| EnvPlaceholders.Expand | core/src/config/env.rs:19-47 | the loop with its copied stretches gives what expanding from each position gives |
| EnvPlaceholders.ContainsPlaceholders | core/src/config/env.rs:49-60 | true exactly when some opening mark is followed by blanks and the prefix |
| EnvPlaceholders.ContainsIsWhatTheScanFinds | core/src/config/env.rs:19-60 | that is exactly when the scan meets something of ours; if not, the output is the input |
| EnvPlaceholders.RenderedIsParsed | core/src/config/env.rs:100-146 | a rendered placeholder is parsed whole: name, trimmed default, end |
| EnvPlaceholders.LiteralIsCopied | core/src/config/env.rs:19-47 | a literal in front of a placeholder is copied, even if it ends in braces |
| EnvPlaceholders.ExpandUndoesRender | core/src/config/env.rs:19-146 | for any alternation of literals and rendered placeholders expansion gives the literals with the values put in, never scanning a value again |
| EnvPlaceholders.OnePlaceholderMeans | core/src/config/env.rs:73-98 | a variable that is set and not empty wins over the default, one that is not text is an error even with a default, else the trimmed default is taken, and without one it is an error |
| EnvPlaceholders.BadNames | core/src/config/env.rs:148-169 | what follows the prefix must be a name: a digit and anything else are two errors |
| EnvPlaceholders.BadEnds | core/src/config/env.rs:115-138 | behind the name there must be a colon or the closing mark: exactly when the placeholder is unclosed and when malformed |
| EnvPlaceholders.PlainTextStays | core/src/config/env.rs:19-22 | a text without two opening braces together, or without the prefix anywhere, is left alone |
| EnvPlaceholders.SnippetEndsWithClose | core/src/config/env.rs:195-203 | every malformed-placeholder error shows the text up to the closing mark; the cut after 48 characters is unreachable |
| ReloadPlan.DiffTunnels | client/src/reload/plan.rs:86-116 | the walk over hash maps and the sorts give the difference of the two maps, each part in strict name order |
| ReloadPlan.DiffIsDetermined | client/src/reload/plan.rs:86-116 | the difference does not depend on the order the maps are walked in |
| ReloadPlan.DiffLeadsToTheNew | client/src/reload/plan.rs:86-116 | applying the difference to the old tunnels gives the new ones |
| ReloadPlan.UniqueNamesLoseNothing | client/src/reload/plan.rs:87-88 | where names are unique no tunnel is lost in the map |
| ReloadPlan.LastOfANameCounts | client/src/reload/plan.rs:87-88 | of several tunnels of one name the last counts |
| ReloadPlan.PlanReload | client/src/reload/plan.rs:28-42 | nothing is planned exactly for configurations with equal tunnels by name and equal connection settings |
| ReloadPlan.OutcomeNamesTheDiff | client/src/reload/plan.rs:69-84 | a planned outcome names every tunnel that differs, in one list and no two |
| ReloadPlan.OutcomeSaysThePlan | client/src/reload/plan.rs:44-84 | what each plan is reported as: nothing, a change of tunnels, or a new connection |
| ClientControl.TunnelManager.FromConfig | client/src/tunnel/manager.rs:35-45 | all of the tunnels by name, or an error exactly if one cannot be built |
| ClientControl.TunnelManager.Upsert | client/src/tunnel/manager.rs:47-54 | the entry is replaced, or nothing changes |
| ClientControl.TunnelManager.Remove | client/src/tunnel/manager.rs:56-65 | that name goes |
| ClientControl.RegisterWatch.Begin | client/src/control/session.rs:71-74 | the name waits again, with all earlier answers forgotten |
| ClientControl.RegisterWatch.Finish | client/src/control/session.rs:76-81 | pending and errors stay what the answers since the registration say |
| ClientControl.HeardAllMeans | client/src/control/session.rs:71-81 | a watched name hears exactly the answers to it, in order, and others are not taken down |
| ClientControl.Control.Open | client/src/control/session.rs:144-163 | succeeds exactly if no tunnel is refused, and then manages exactly the configuration |
| ClientControl.Control.CloseTunnel | client/src/control/session.rs:220-231 | the tunnel is forgotten exactly if the message could be written |
| ClientControl.Control.RegisterTunnel | client/src/control/session.rs:233-245 | a tunnel that passes validation and building is held even if its message cannot be written; the error is that of the first thing that failed |
| ClientControl.Control.CollectRegisterErrors | client/src/control/session.rs:316-353 | names exactly the registrations not confirmed by an answer without error, each with what was answered or as timed out; the watch hears every answer of the time it took; something is unanswered only after 5 s; at most 100 sleeps, and none if all is answered |
| ClientControl.Control.StartAndWait | client/src/control/session.rs:281-311 | what is started, what could not be, and what of the started came to nothing, each with the list it is reported in |
| ClientControl.Control.ApplyTunnelChanges | client/src/control/session.rs:255-314 | for each changed name exactly when it is reported as removed, updated, added or failed and what the manager then holds; nothing else is touched |
| ClientControl.AllSettled | client/src/control/session.rs:255-314 | what the phases of a reload leave in their lists adds up to that |
| ClientControl.DiffIsWellFormed | client/src/control/session.rs:255-314 | a difference has each name once, as applying it needs |
| ClientControl.EachChangeIsReportedOnce | client/src/control/session.rs:255-314 | every name that differs is in exactly one of added, removed, updated and failed, every other name in none |
| ClientControl.ManagerHoldsTheNew | client/src/control/session.rs:255-314 | where the manager held the old configuration it holds the new one on every name that did not fail |
| ClientService.Service.ApplyReload | client/src/service.rs:342-422 | an invalid configuration changes nothing; otherwise the answer, the configuration in force and the manager are what the plan calls for |
| ClientService.CurrentFollows | client/src/service.rs:342-422 | the configuration in force stays equivalent to the last valid one asked for |
| ClientService.ManagerStaysCurrent | client/src/service.rs:391-404 | through any reloads of a session the manager holds the configuration in force on every name that never failed |
| ClientService.Service.KeepPending | client/src/service.rs:161-166 | the pending slot is filled only when empty |
| ClientService.Service.AnswerPending | client/src/service.rs:146-148 | an established session answers the pending reload with its outcome and empties the slot |
| ClientService.Service.FailPending | client/src/service.rs:272-276 | the pending reload, if any, fails once |
| ClientService.Service.WaitOrReload | client/src/service.rs:229-246 | waits the current delay; a request that cuts it short is answered |
| ClientService.Service.RunSessionLoop | client/src/service.rs:289-340 | the session's own choices decide how it ends; every request is answered, but the one that makes it reconnect, which is handed on; when it is cancelled or reconnects, no tunnel is held but those whose closing failed |
| ClientService.Service.Serve | client/src/service.rs:259-270 | a request without a session is answered once, with success if and only if it is valid, and then it is in force |
| ClientService.Service.Drain | client/src/service.rs:248-257 | requests are served until the channel has none |
| ClientService.Service.ServeInSession | client/src/service.rs:317-328 | the session is given up if and only if the request is valid and changes the connection; then its tunnels are closed, and else the request is answered |
| ClientService.Service.TryConnect | client/src/service.rs:81-141 | what each answer to a login leads to: the end, another round, a wait or a session |
| ClientService.Service.AfterSession | client/src/service.rs:153-207 | what each end of a session leads to, and that a disconnected session is recorded as the one to present |
| ClientService.Service.Round | client/src/service.rs:63-224 | a cancelled client stops at the head of the loop with nothing sent; any other end is what the last step called for |
| ClientService.Service.Run | client/src/service.rs:41-226 | when the loop returns every request received was answered exactly once, and it returns for a cancellation, a rejected login or a kick it has just seen; every wait is the one its place in the history calls for (KthWait), every login presents the session last disconnected, and logins, sessions, their ends and waits come in order (MayFollow) |
| ClientService.KthWait | client/src/service.rs:126-138 | in the history of any run the wait after k others since the last established session takes min(2^k, 60) seconds |
| ClientService.ProperAfter | client/src/service.rs:143-223 | one more event extends a history in which every wait and every login is as called for and in order |
| ClientService.DelayDoubles | client/src/service.rs:136-138 | one second first, then doubled up to 60 s, as the capped powers of two |
| WindowedCounters.Slide | server/src/metrics/date_counter.rs:41-49 | rotating and zeroing shifts every count by that many slots and clears the new ones |
| WindowedCounters.DateCounter.Inc | server/src/metrics/date_counter.rs:28-31 | after any calls every slot holds what the history says was added that many days before |
| WindowedCounters.DateCounter.LastDays | server/src/metrics/date_counter.rs:22-26 | slot i is the capped sum of what was added while the latest day seen was i days before the latest now |
| WindowedCounters.HourCounter.Inc | server/src/metrics/hour_counter.rs:22-25 | the same for hours |
| WindowedCounters.HourCounter.LastHours | server/src/metrics/hour_counter.rs:17-21 | the same for hours, on every history whose calls after the first are in step |
| WindowedCounters.MoveStandsRight | server/src/metrics/hour_counter.rs:27-47 | from a window that stands right, one call leaves it so if and only if it is not later than the latest time or whole hours later |
| WindowedCounters.WindowFollowsTheLatest | server/src/metrics/date_counter.rs:33-51 | after each call of a history the window stands at the latest time with one slot for each unit passed, if and only if all calls are in step; steps backward are charged to it |
| WindowedCounters.SumsAreRightIff | server/src/metrics/hour_counter.rs:27-47 | all slots are right after all calls whatever is added, if and only if every call after the first is in step |
| WindowedCounters.HalfHourShiftFails | server/src/metrics/hour_counter.rs:50-55 | two additions half an hour of offset apart: the first is shown in the slot of the second |
| WindowedCounters.FallBackFails | server/src/metrics/hour_counter.rs:50-55 | two additions 33 minutes apart in the hour that comes twice when an ordinary clock is put back: they are not in step, and the first is shown in the slot of the second |
| WindowedCounters.TruncatedToTheHourIff | server/src/metrics/hour_counter.rs:50-55 | in a zone that shifts by whole hours a time is cut to an hour of the zone if and only if its hour start resolves or it is one itself |
| WindowedCounters.WholeHourShiftsAreInStep | server/src/metrics/hour_counter.rs:50-55 | in such a zone all calls whose hour starts resolve are in step |
| WindowedCounters.SlotIsCappedSum | server/src/metrics/date_counter.rs:28-31 | saturating additions of non-negative amounts give the exact sum capped at the largest number |
| WindowedCounters.AdditionMeans | server/src/metrics/date_counter.rs:28-31 | an addition goes to the slot the window stands at, saturating at both ends of 64 bits, and to no other; a read goes nowhere |
| WindowedCounters.SumMeans | server/src/metrics/date_counter.rs:28-31 | under a clock that does not step back the sum of a moment is what was added at it, and a slot shows it up to 2^63 - 1 |
| WindowedCounters.SlidKeepsAgreement | server/src/metrics/hour_counter.rs:27-47 | moving the bounded window keeps it in agreement with the unbounded history |
| WindowedCounters.SteadyClockChargesItsOwnTime | server/src/metrics/date_counter.rs:33-51 | while the clock never steps back everything is charged to the time it was added at |
| WindowedCounters.HoursAreAligned | server/src/metrics/hour_counter.rs:50-55 | two hour starts that resolve are whole hours apart exactly if their offsets are |
| WindowedCounters.TruncationMeans | server/src/metrics/hour_counter.rs:50-55 | an hour start that resolves is the last one on the local clock; else the time stays as it is |
| Replay.ReplayCache.AcceptAt | core/src/auth/replay.rs:20-41 | the bounded map answers what the whole history calls for and never exceeds 100000 entries |
| Replay.AgreesAfter | core/src/auth/replay.rs:20-41 | purging and inserting keeps the map equal to the acceptances still alive |
| Replay.JudgedMeans | core/src/auth/replay.rs:20-41 | a digest is refused as a replay exactly if an acceptance of it still counts; else it passes exactly while fewer than 100000 digests have one that does |
| Replay.AcceptedTwiceIsApart | core/src/auth/replay.rs:20-41 | between two acceptances of one digest the first has expired: under a steady clock they are at least 360 s apart |
| Replay.SteadyAnswers | core/src/auth/replay.rs:20-41 | under a steady clock a digest is refused as a replay exactly while an acceptance of it is younger than 360 s, and else passes exactly if fewer than 100000 were accepted in that time |
| AuthToken.VerifyAuthDigest | core/src/auth/token.rs:14-42 | no token passes everything; otherwise the screen decides first and only what passed it reaches the cache |
| AuthToken.ScreenMeans | core/src/auth/token.rs:24-37 | an empty digest is refused first, then a timestamp more than 180 s off, and the rest pass exactly if they are the timestamp's digest |
| AuthToken.SkewCheckMeans | core/src/auth/token.rs:27-29 | exactly which pairs of clock and timestamp pass the check in 64-bit arithmetic |
| AuthToken.SkewCheckOverflowExample | core/src/auth/token.rs:27-29 | a clock and a timestamp 2^63 seconds apart pass the check |
| AuthToken.Service.VerifyLogin | core/src/auth/token.rs:44-52 | every history of logins is judged by the screen and then by the cache |
| AuthToken.SecondLoginNeedsBothEnds | core/src/auth/mod.rs:9-13 | two accepted logins with one digest are 360 s apart; on one clock the first came exactly at the start of its window and the second exactly at its end |
| AuthToken.EntriesWereVerified | core/src/auth/token.rs:31-41 | every digest in the cache is the verified digest of some login |

## Left out

- LeaseReclaim.ShutdownReclaims: needs that no registration is in flight when the drain starts, because `closed` is not checked again at insertion; LateRegistrationIsLeftBehind says exactly when that matters.
- LeaseReclaim.LateRegistrationIsLeftBehind: is about the steps of the control alone; the steps of others can free or take the name in between.
- SessionOutcomes.LoginAlone: like LookupAlone, FailedLoginAlone and ConnectionEndsAlone it is for a session nobody else is busy with; what holds among others is what AtMostOneAccepting, LookupAnswersTruly, EndedLoginsAreOut and OneWinner say.
- LeaseOutcomes.RegisterAlone: like CloseAlone it is for a control nobody else acts beside; CloseReleases is not.
- WindowedCounters.HourCounter.LastHours: speaks of sums for histories in step; for others `HourCounter.Valid` still says which slot each addition went to, and SumsAreRightIff shows that no more can be said for all amounts.
- AgentProtocol.OnlineAgentsAreAccountedFor: like AgentOnline.AgentsStayOnlineIff it is for sessions that always log in with one user and agent id; ChangedIdentityOrphans shows what happens otherwise.
- WindowedCounters.DateCounter.LastDays: speaks of sums only for non-negative amounts, which is what traffic counters add; with decrements `InSlot` gives the saturating fold instead.
- AuthToken.SecondLoginNeedsBothEnds: its second part assumes that both clocks are one clock, read once for each login, and that the skew subtraction does not wrap.
- AuthToken.ScreenMeans: is for differences that fit in 64 bits; SkewCheckMeans covers the rest.
- TokenBucket.BandwidthLimiter.WaitN: lets others take a bounded number of turns, and without such a bound a wait need not end. Dropped waits, which may only have spent tokens, are left out.
- ClientControl.Control.ApplyTunnelChanges: requires the distinct names that `plan_reload`, its only source of changes, guarantees.
- ClientService.Service.Run: is followed for any number of steps; that the loop ever ends is not claimed. Requests still in the channel when it returns were not received.
- Floating point in the limiter: real numbers, so rounding and the loss of tiny amounts are not modelled; the epsilon and the shortest sleep are kept.
- HMAC, hexadecimal decoding, UTF-8 and the text form of IPv6 addresses: functions about which only the stated laws are assumed (for IPv6 that reading undoes printing, at most 39 printable characters without white space). The replay cache is keyed by the digest's text, so two texts that decode to the same bytes are two digests to it.
- Task aborts and dropped futures: every task runs to its end, so a control is dropped only after its shutdown has finished and its reader has ended. Timeouts that only log are free choices of an early return.
- Time zones: the offset of the instant that a local hour start stands for, or that there is no unique one, is part of a clock reading (`Reading`). That setting the minute of a local time gives nothing where the result is ambiguous or does not exist is the documented behaviour of chrono, whose source is not part of this model.
- Trimming of tunnel names: names are taken as already trimmed; `try_insert` trims and `remove_if_owner` does not.
- Host normalisation, domain expansion, header rewriting and basic authentication of routes: irregular string handling; hosts are keys.
- HTTPS tunnels: in the lease system they lease a name and no port, as HTTP tunnels do, which the optional port covers; the HTTPS gateway repeats the HTTP one and has no model of its own.
- Sockets, TLS, QUIC, KCP, WebSocket, multiplexing, SOCKS5, plugins, the frame codec, JSON, configuration parsing beyond placeholders, heartbeats, per-connection metrics, the dashboard and the desktop shell: input and output, or easy members.
