# GlukVPN: verified models

Dafny models of the control plane and the node agent of GlukVPN, with proofs about every run, every
input or every interleaving the code allows. `dafny verify dfyconfig.toml` checks everything.

## What is modelled

**Sessions, leases and commands.** `Rows` holds the table rows. `Plane` says what each statement,
transaction and handler of the control plane does to the committed tables. `ControlPlane` is the
imperative form of the same services, statement by statement, each method proved to do what `Plane`
says; `NodeAgent` is the agent's command loop and `Reports` the report handler. `Protocol` puts the
pieces together as a state machine: committed rows, requests that are between two of their statements
(a close, a claim, an acknowledgement), lease rows a monitor tick has selected and not freed yet, the
peer tables of the agents, and report answers not applied yet. A run is any sequence of steps, so lost,
delayed, repeated and reordered messages and crashed requests are all runs.

What all runs keep is proved in `NoReturn`, `Subjects`, `Leases`, `Sharing`, `Keys` and `QueueDrain`, what
runs with agreeing acknowledgements keep in `Exclusive`, what runs without loss keep in `Fifo` and
`Agreement`. `Races`, `Overtaken`, `Handout` and `Repair` are about promises that fail: each has concrete
runs, built on the start states of `Scene`, or the exact conditions. `Counters` has report handlers overlap.

**Locks.** `Gate` models the advisory gate and the user and node row locks with acquisition, each
check and commit as separate steps of any number of processes, and proves what `Plane.CreateSession`
takes for granted: that all checks of a connect still hold when it commits, so that a commit does to the
rows what that one step does. An administrator's revocation is there statement by statement. `Switches`
says what each of these transactions has done when it commits, and when it goes through left alone.

**Money.** `Orders` is the order state machine one database statement at a time, and the handlers over
it; `Subscriptions` the stacking of terms; `Quota` the traffic windows; `Pricing` prices, promo codes and
the agreement of quote and charge.

**Calendar.** `Calendar` defines time values by counting months and proves the closed formula of
section 21.4.1 of ECMA-262 equal to it; `BillingCycle` is the anniversary arithmetic of the egress budget.

**Sign-in and devices.** `LinkAuth` is the device authorization grant of RFC 8628 at single-statement
interleaving; `DeviceAccess` device slots and credential epochs.

**Text and sums.** `Smtp` is the reply reader (section 4.2.1 of RFC 5321) and the body wrapping, `Ipv4`
addresses and pools with 32-bit operators, `Analytics` the usage fold, `Text` shared string functions.

## What the code promises and does not keep

Each item is a property that is false of the code as it stands; a lemma gives the failing case and
another the condition under which the property holds.

- *An address is never handed to two peers* (sessions.ts, routes/node.ts, monitor.ts). Two statements free
  a lease without looking whether its session is still live: the acknowledgement's release and the
  reclaim's update by id. `Leases.LeasesAreKeptIff`, over all runs: in every state every live session holds
  its lease if and only if neither of them ever meets a live session. `Sharing.SharedLaterIff`: two live
  sessions can come to share an address without another such step if and only if a live session is
  without its lease already. There are three ways to that, each with a run:
  a reclaim that frees what it selected earlier (`Races.ReclaimCanShareAnAddress`; `Exclusive.FreeingKeepsIff`
  says which selections are harmless); a removal that is acknowledged before `closeSession` closes the row
  (`Races.ConfirmedPeerReturns`, after which both peers are up with the one address); and a late refusal
  of a setup whose session is ACTIVE (`Races.LateRefusalSharesAnAddress`). `Exclusive` is about runs in which
  all acknowledgements of one command agree and reclaims are harmless: there only the second is left.
- *A removal overtaken by a reconnect* (sessions.ts, `closeSession`): the function is not a transaction,
  so its removal can be queued behind the setup of a session that took over the key, and the agent then
  removes the new peer. `Overtaken.ReconnectLosesItsPeer` is such a run, and
  `Overtaken.EnqueueLosesAPeerIff` the exact condition under which a live session ends without its peer.
- *A finished command stays as it finished* (nodeCommands.ts, `completeCommand`): the status is read and
  then written without a guard. `Races.VerdictsCanBeOverwritten` shows both directions, and
  `QueueDrain.FinishedChangesIff` says when it can still happen. A finished command is never open again.
- *A stale setup is never handed out* (nodeCommands.ts, `claimPendingCommands`): the rows are selected in
  a later statement than the one that fails dead setups. `Handout.EndedSetupIsHandedOut` is a run in which
  the agent sets up the peer of a session that ended; `Handout.HandedOutAgainIff` is the exact condition.
- *The report reconciles drift* (routes/node.ts): of keys, never of addresses. `Repair.AddressIsRightIff`
  says when a peer has its session's address, `Repair.RepairedIff` what a pass and a report restore, and
  `Repair.WrongAddressStays` is a run after which nothing is left to do and two peers have one address.
- *Counters only move forward* (routes/node.ts): true of one report, false of overlapping handlers.
  `Counters.OverlapFallsIff` says when a write moves one back, whenever each handler read, and
  `Counters.CounterFalls` is a run of three handlers that does.
- *Administrator revocation* (routes/admin.ts) takes no lock. `Gate.RevocationIsOvertaken` is a run that
  ends with a live session on a revoked device; `Gate.OvertakenIff` says in which states that can still
  come. Revocation by the owner never does it: `Gate.LiveSessionsHaveCurrentCredentials`.
- *A failed checkout* (billing.ts 515-518) writes FAILED without a guard and erases the metadata: exactly
  when it meets a paid order, that order can be paid and granted a second time
  (`Orders.FailedCheckoutIsHarmlessIff`; `Orders.GrantedTwice` is the run). The other results about
  payments hold for all runs in which it meets none.
- *A paid order has its plan* (billing.ts, `markOrderPaid`): exactly when no process is between the claim
  and the grant (`Orders.UngrantedIff`); when that process has stopped, no later event grants it
  (`Orders.StrandedForever`).
- *Overlapping grants* (billing.ts, `grantPlan`) read outside their transaction:
  `Subscriptions.OverlappingGrantsCollide`; `Subscriptions.StaleWriteKeepsTiersIff` is the exact condition.
- *Renewal never resets the window* (entitlements.ts) holds exactly for contiguous rows whose chain is
  shorter than the 36-row look-back: `Quota.RenewalKeepsAnchorIff`.
- *The cycle contains now* (egressBudgetMath.ts) holds for all instants exactly when the anchor's year is
  100 or later, because `Date.UTC` reads years 0 to 99 as 1900 to 1999: `BillingCycle.ContainsNowIff`.
- *The windows of the usage chart* (insightMath.ts) inherit the same quirk: they do not overlap exactly
  when now is outside the years 0 to 99 (`Analytics.WindowsDoNotOverlap`), and every row has its bucket
  except in a week that reaches back into the year 99 (`Analytics.SeriesIsTheGrid`).
- *One read is not one reply* (mailer.ts): parsing does not depend on how the stream is cut, but a reply
  completed while nobody waits is dropped; `Smtp.NothingDroppedIff` says when none is.

## Model

| member | source | states |
|---|---|---|
| Plane.FirstAddress | control-server/src/services/sessions.ts:415-418 | the address taken is the least of the free ones |
| Plane.ConnectAdmits | control-server/src/services/sessions.ts:393-452 | a connect succeeds if and only if every gate is open; then one free lease is taken and one setup is queued last, the node is within its capacity, and the account is within its plan's number of sessions, or within its own and 20, or has this one only |
| Plane.PoolIsCreated | control-server/src/services/sessions.ts:98-108 | a node without lease rows gets one for each address, free; a node that has some, and every other row, is as it was |
| Plane.ScopeIsClosed | control-server/src/services/serviceControl.ts:41-68 | a mass close ends exactly the live sessions of the node, of the device, or all, fails exactly their unclaimed setups, queues one removal for each at the end with its own node, key and address, and leaves every other row, every other command and all leases |
| Plane.DeletionCascades | control-server/prisma/schema.prisma:398-470 | deleting a device takes exactly its sessions, frees exactly their leases and clears exactly the commands that named them |
| NoReturn.NeverReturns | control-server/src/routes/node.ts:511-529 | in every continuation of every run an ended session stays ended |
| NoReturn.DeliveredAddsAreLive | control-server/src/services/nodeCommands.ts:29-51 | a claim whose statements nothing comes between delivers an ADD_PEER only for a session that is PENDING or ACTIVE |
| Handout.HandedOutWereLive | control-server/src/services/nodeCommands.ts:32-46 | whatever comes between the two statements of a claim, a setup it hands out that was waiting at the first was of a live session then |
| Handout.HandedOutAgainIff | control-server/src/services/nodeCommands.ts:29-51 | in any reachable state the setup of an ended session can be delivered once more if and only if it is with its node and has attempts left, or it waits and the claims now between their statements, ten commands each, can take all that is hard to pass before it |
| Handout.EndedSetupIsHandedOut | control-server/src/services/nodeCommands.ts:29-51 | a run in which a setup handed out after its session ended overwrites the address of the live session with the same key |
| Subjects.RunContinues | control-server/src/services/nodeCommands.ts:9-104 | over all runs a command keeps its place, kind, node, key and address, and its attempts never fall |
| Subjects.NobodyTakesTheKey | control-server/src/services/sessions.ts:403-436 | while a session lives no step queues another setup with its key |
| NoReturn.AddPrecedesRemove | control-server/src/services/serviceControl.ts:51-66 | a session's ADD_PEER stands before each of its REMOVE_PEERs in every reachable queue |
| Leases.HoldsUnlessRobbed | control-server/src/routes/node.ts:519-533 | in every run a session that is live at the end holds the lease of its address if and only if no acknowledgement and no reclaim freed that lease while the session was live; a lost lease is never regained |
| Leases.LeasesAreKeptIff | control-server/src/services/sessions.ts:415-436 | over all runs: in every state every live session holds its lease if and only if no step frees the lease of a session that is live |
| Leases.UnrobbedAreDistinct | control-server/src/services/sessions.ts:415-436 | over all runs: two live sessions of a node share an address only if one of them lost its lease while live |
| Leases.AcksRobTheirOwn | control-server/src/routes/node.ts:511-533 | over all runs: an acknowledgement frees leases of its own session only, and that of a live one exactly when the session holds it, by the success of a removal or the refusal of the setup of an ACTIVE session |
| Sharing.SharedLaterIff | control-server/src/services/sessions.ts:415-436 | from any reachable state some continuation in which no live session loses its lease ends with two live sessions on one address if and only if a live session is without its lease already |
| Races.LateRefusalSharesAnAddress | control-server/src/routes/node.ts:511-528 | a run from an installed system in which a late refusal releases the address of an ACTIVE session and another session is given it |
| Exclusive.AddressesAreExclusive | control-server/src/services/sessions.ts:415-436 | in runs whose acknowledgements of one command agree and whose reclaims are harmless: a live session holds exactly the lease of its address unless a removal of it has been acknowledged, and so two live sessions of a node share an address only while one of them has an acknowledged removal and its row is not closed yet |
| Exclusive.AddressesAreDistinct | control-server/src/services/sessions.ts:596-660 | in the same runs a live session that no close is about to end holds its lease, and two such sessions of a node have different addresses |
| Races.ConfirmedPeerReturns | control-server/src/services/sessions.ts:612-652 | the exception is real: a careful run after which two ACTIVE sessions of a node have one address and both have their peer |
| Exclusive.LateAcksHarmNobody | control-server/src/routes/node.ts:519-533 | in the same runs a late or repeated acknowledgement frees the lease of a live session only if a removal of that session has been acknowledged |
| Exclusive.FreeingKeepsIff | control-server/src/services/monitor.ts:163-183 | freeing selected leases keeps every live session covered if and only if no selected row is held by a live session that still needs it |
| Keys.LiveSessionsDiffer | control-server/src/services/sessions.ts:403-413 | over all runs, with rotations and stale credentials, two live sessions have different devices and different peer keys |
| Keys.RotationMeans | control-server/src/services/deviceAccess.ts:38-50 | a rotation takes effect if and only if the device is active and has no live session and the key is new; then the epoch rises with it |
| Keys.RevocationMeans | control-server/src/services/deviceAccess.ts:83-98 | the owner's revocation leaves the device inactive, with the next epoch if it was active, and without a live session |
| Keys.CredentialsMoveForward | control-server/src/services/deviceAccess.ts:38-76 | no device operation lowers an epoch or changes an owner; a new key, which only a rotation gives, and an activation raise the epoch by one |
| Agreement.HasPeerIff | node-agent/src/agent.ts:118-203 | after any run without loss, on a node with no open command a live session has its peer if and only if no closeSession and no refused setup is about to end it, and then with its own address |
| Agreement.PeersAgreeWithSessions | node-agent/src/agent.ts:118-203 | so such a node has exactly the peers of its live sessions that no request is about to end, each with its address, whatever is unfinished elsewhere |
| Agreement.PeersShareIfRobbed | node-agent/src/agent.ts:124-149 | two peers of such a node have the same address only if the session of one of them lost its lease while live |
| Agreement.PeerAddressesAreDistinct | node-agent/src/agent.ts:124-149 | if leases are also reclaimed with care no two peers of such a node have the same address |
| Overtaken.EnqueueLosesAPeerIff | control-server/src/services/sessions.ts:612-634 | a removal queued in a run without loss leaves every session that stays with its peer, once the node has no open command, if and only if no other live session had the key when it was queued |
| Overtaken.RemovalTakesThePeer | control-server/src/services/sessions.ts:612-634 | otherwise, however the run goes on without loss, the live session that has the key is without a peer once its node has no open command |
| Overtaken.ReconnectLosesItsPeer | control-server/src/services/sessions.ts:601-652 | a run from an installed system, without loss but for the late removal, that ends with nothing left to do and an ACTIVE session without a peer |
| Races.ReclaimCanShareAnAddress | control-server/src/services/monitor.ts:166-183 | a run from an installed system in which reclaim by id gives one address to two live sessions |
| Repair.AddressIsRightIff | node-agent/src/agent.ts:118-179 | in every state of every run a live session's peer has the session's address if and only if its entry came from the session's own setup or from that of an ended session with the same address |
| Repair.ReportKeepsLiveKeys | control-server/src/routes/node.ts:396-477 | one report and its answer keep exactly the entries whose key a live session had when the report was handled, each as it was |
| Repair.ReportsNeverCorrect | control-server/src/routes/node.ts:396-477 | no number of reports changes the address an entry of a live session has |
| Repair.RepairedIff | node-agent/src/agent.ts:181-252 | after a pass over the commands handed out and a report only keys of live sessions are left, and a session has its peer if and only if the last command for its key that succeeded set that address up, or there was none and it was right |
| Repair.WrongAddressStays | control-server/src/services/nodeCommands.ts:80-104 | a run with loss after which nothing is left to do and two peers have one address |
| QueueDrain.QueueDrains | control-server/src/services/nodeCommands.ts:29-104 | the open commands of a queue of k change at most 10k times however often nodes poll and acknowledge and the monitor sweeps, statement by statement |
| QueueDrain.MoveSpends | control-server/src/services/nodeCommands.ts:29-104 | every statement of a claim, sweep or acknowledgement that changes an open command strictly lowers the queue's potential, and none raises it |
| QueueDrain.OpenCanMove | control-server/src/services/nodeCommands.ts:29-104 | while a command is open some poll or sweep changes the queue |
| QueueDrain.DeliveriesAreBounded | control-server/src/services/monitor.ts:159-161 | over all runs no command is delivered more than five times, and one that is DONE or FAILED is never open or delivered again |
| QueueDrain.FinishedChangesIff | control-server/src/services/nodeCommands.ts:55-75 | a DONE or FAILED command can still be seen with another status if and only if an acknowledgement with the other verdict has read it open and not written yet |
| Races.VerdictsCanBeOverwritten | control-server/src/services/nodeCommands.ts:55-75 | runs from an installed system in which FAILED becomes DONE and DONE becomes FAILED |
| ControlPlane.Tables.CreateSessionWithLease | control-server/src/services/sessions.ts:385-461 | opens a session if and only if every gate is open; a refusal names a closed gate, in terms of the rows, and changes nothing; success adds one session, the lease of the least free address and one setup, and then the account has one live session, or no more than its plan allows, or no more than its own limit and 20, the node no more than its capacity and the device this one only |
| ControlPlane.Tables.HasOpenCommand | control-server/src/services/nodeCommands.ts:106-121 | found exactly when a REMOVE_PEER of the session is PENDING or DELIVERED |
| ControlPlane.Tables.CloseSession | control-server/src/services/sessions.ts:601-652 | uninterrupted: a live session is CLOSED and a removal with its node, key and address queued unless one is open; an ended session is left alone |
| ControlPlane.Tables.CloseSessionsInTransaction | control-server/src/services/serviceControl.ts:45-68 | closes exactly the live sessions in scope, fails their unclaimed setups, queues one removal each |
| ControlPlane.OldestWaiting | control-server/src/services/nodeCommands.ts:39-42 | the batch is waiting commands of the node, oldest first; one is left out only when the batch is full, and then nothing before it is |
| ControlPlane.ClaimedInTwo | control-server/src/services/nodeCommands.ts:29-51 | failing dead setups and delivering the oldest rows are the two statements of the protocol's claim |
| ControlPlane.Tables.ClaimPendingCommands | control-server/src/services/nodeCommands.ts:29-51 | run alone: every command is DELIVERED with its attempt counted, FAILED because it is a setup without a live session, or as it was; those delivered are the oldest that waited, and one stays waiting only when the batch has reached the limit, which is held between 1 and 50 |
| ControlPlane.AcksStayAtHome | control-server/src/routes/node.ts:480-548 | an acknowledgement changes its own command only if open, to DONE or FAILED, its own session only if PENDING, to ACTIVE or FAILED, and leases of its own session only, which it frees exactly when the setup failed or the removal succeeded |
| ControlPlane.AckIsItsSteps | control-server/src/routes/node.ts:480-548 | the handler is the protocol's four statements of an acknowledgement run without interruption |
| ControlPlane.ClosingIsItsSteps | control-server/src/services/sessions.ts:601-652 | closeSession is its four statements run without interruption |
| ControlPlane.ClaimingIsItsSteps | control-server/src/services/nodeCommands.ts:29-51 | a poll's claim is its two statements run without interruption, with room for ten commands |
| ControlPlane.ReclaimingIsItsSteps | control-server/src/services/monitor.ts:163-183 | the reclaim is its two statements run without interruption |
| ControlPlane.SweptInTwo | control-server/src/services/nodeCommands.ts:84-103 | the two updates of a sweep act on disjoint rows and their counts are the rows moved each way |
| ControlPlane.Tables.RequeueStaleCommands | control-server/src/services/nodeCommands.ts:80-104 | a command changes exactly if it is DELIVERED since before the cutoff: to PENDING while it has attempts left, else to FAILED; the counts say how many of each |
| ControlPlane.Tables.ReclaimLeases | control-server/src/services/monitor.ts:163-183 | uninterrupted, frees exactly the leases whose session was CLOSED or FAILED before the cutoff, and counts them |
| ControlPlane.Tables.MonitorTick | control-server/src/services/monitor.ts:108-183 | one tick is: close, sweep, reclaim, in this order; afterwards exactly the live sessions are CLOSED that stood under maintenance, an inactive account, an inactive device or another reason given |
| ControlPlane.EachIsClosed | control-server/src/services/monitor.ts:108-157 | closing one by one closes exactly those sessions, leaves an open removal for each, touches nothing else |
| ControlPlane.NothingDoomedStaysOpen | control-server/src/services/monitor.ts:108-157 | the closes end exactly the live sessions under maintenance, of inactive accounts or devices or with another reason given, each has an open removal, and no reason is left |
| NodeAgent.Agent.RunCommand | node-agent/src/agent.ts:118-179 | succeeds exactly on well-formed commands of a known type whose tool call succeeds; then a setup enters its key with its address, a removal takes its key out, and every other key is as it was |
| NodeAgent.Agent.HandleCommands | node-agent/src/agent.ts:181-203 | every command of a batch is run in order and acknowledged with what happened to it |
| NodeAgent.Agent.DropPeers | node-agent/src/agent.ts:232-244 | exactly the valid keys of the report answer whose removal the tool accepts are dropped; a refused one does not stop the others |
| NodeAgent.LastCommandDecides | node-agent/src/agent.ts:181-203 | after a pass a key has the address of the last setup for it that succeeded, none after a removal, and what it had if no command succeeded |
| NodeAgent.RedeliveryIsHarmless | node-agent/src/agent.ts:181-203 | an agent that stopped after any prefix and gets the batch again ends with the table of one complete pass |
| NodeAgent.BatchDecides | node-agent/src/agent.ts:181-203 | a batch leaves the same table behind whatever the keys it touches held before |
| NodeAgent.LoopRefinesProtocol | node-agent/src/agent.ts:181-203 | the loop does to the table what the protocol's Execute steps do to the node's |
| Reports.SessionTable.CountPeers | control-server/src/routes/node.ts:396-430 | the session that owns a key in the order read gets the larger of each counter and that of the last entry of the key; strangers are listed |
| Reports.SessionTable.ClosePeerless | control-server/src/routes/node.ts:434-454 | closes exactly the active tunnels past the grace period whose peer was not reported, each with a removal |
| Reports.SessionTable.ApplyReport | control-server/src/routes/node.ts:380-477 | each row: closed if it is an active tunnel past the grace period and not listed, only its counters and handshake moved if it is live and listed, else as it was; an entry that alone speaks for a session raises each counter to the larger value; the keys to remove are those without a live session |
| Reports.UnknownAreTheStrangers | control-server/src/routes/node.ts:396-409 | the peers to remove are exactly the reported keys without a live session |
| Reports.ReportRepairs | control-server/src/routes/node.ts:396-477 | keys: one report leaves only peers of live sessions, every active tunnel past its grace period has a peer, and what a live session had is as it was, its address included |
| Reports.CountersMoveForward | control-server/src/routes/node.ts:412-421 | within one report no counter falls and each is the old value or a reported one |
| Counters.OverlapFallsIff | control-server/src/routes/node.ts:396-430 | in every run of handlers that each read once and write entry by entry, whatever overlaps, a write moves a receive or a transmit counter back if and only if the last write to the session since that handler's read left a value beyond both what it read and what it was sent |
| Counters.AnotherHandlerWrote | control-server/src/routes/node.ts:403-421 | that last write was another handler's, unless the handler's own list names the key twice |
| Counters.AloneIsTheLoop | control-server/src/routes/node.ts:396-430 | a handler nobody comes between leaves the table the loop leaves |
| Counters.CounterFalls | control-server/src/routes/node.ts:412-421 | a run of three handlers in which a counter goes to 10 and back to 8 |
| Gate.MaintenanceMeansNoSession | control-server/src/services/serviceControl.ts:69-92 | in every reachable state global maintenance means no live session and node maintenance none on that node |
| Gate.LimitsAreNeverExceeded | control-server/src/services/sessions.ts:393-414 | with any number of concurrent connects: one live session per device, no account and no node over its limit |
| Switches.SideBySide | control-server/src/services/sessions.ts:394-396 | connects of different accounts on different nodes never wait for each other |
| Gate.OneUpdatePerVersion | control-server/src/services/serviceControl.ts:69-83 | no two successful settings updates carried the same expected version |
| Switches.UpdateCommits | control-server/src/services/serviceControl.ts:69-83 | in every reachable state: a settings update that commits finds the version it expected and raises it by one, sets the maintenance switch as requested or leaves it, closes every session when it is switched on and none otherwise, and changes nothing else |
| Switches.UpdateAlone | control-server/src/services/serviceControl.ts:69-83 | left alone a settings update takes effect if and only if the version is the expected one, and leaves nothing behind otherwise |
| Switches.ClosedUntilNextUpdate | control-server/src/services/serviceControl.ts:69-83 | over all runs: between an update that switches maintenance on and the next update that succeeds no connect commits and no session is live |
| Switches.ToggleCommits | control-server/src/services/serviceControl.ts:84-92 | in every reachable state: node maintenance that commits is as requested, and exactly the node's sessions are closed when it is switched on |
| Switches.ToggleAlone | control-server/src/services/serviceControl.ts:84-92 | left alone node maintenance is switched if and only if the node exists |
| Switches.ClosedUntilNextToggle | control-server/src/services/serviceControl.ts:84-92 | over all runs: until the node's maintenance is switched again no session is opened on it and none is live |
| Switches.RevokeCommits | control-server/src/services/deviceAccess.ts:83-98 | in every reachable state: a revocation by the owner that commits leaves the device inactive with a new epoch if it was active, and closes exactly its sessions |
| Switches.RevokeAlone | control-server/src/services/deviceAccess.ts:83-98 | left alone it takes effect if and only if the device is the caller's |
| Switches.WithdrawAlone | control-server/src/routes/admin.ts:1307-1326 | left alone an administrator's revocation takes the status of an active device and closes exactly its sessions; its epoch stays |
| Switches.RegisterCommits | control-server/src/services/deviceAccess.ts:11-76 | in every reachable state: a registration that commits raises the epoch of the device, and gives it the new key only while it has no live session |
| Switches.RegisterAlone | control-server/src/services/deviceAccess.ts:11-76 | left alone it takes an inactive device of the account back, and rotates the key of an active one if and only if it has no live session and the key is new |
| Switches.ConnectAlone | control-server/src/services/sessions.ts:392-453 | left alone a connect opens its session if and only if service, account, device and node all admit it |
| Gate.LiveSessionsHaveCurrentCredentials | control-server/src/services/deviceAccess.ts:83-98 | a live session has its device's current key, and a device its owner revoked has no live session until registered again |
| Gate.ChecksHoldAtCommit | control-server/src/services/sessions.ts:393-436 | every check a connect made is still true when it commits |
| Gate.OvertakenIff | control-server/src/routes/admin.ts:1307-1326 | a device that is inactive without a live session, in any reachable state, gets one without a new registration in some continuation if and only if a connect that has read its row is under way and service, account and node admit sessions |
| Gate.RevocationIsOvertaken | control-server/src/routes/admin.ts:1307-1326 | a run from the initial state through an administrator's revocation, its closes included, that ends with a live session on the revoked device |
| Gate.CommitIsCreateSession | control-server/src/services/sessions.ts:393-452 | the commit of a connect that made its checks one by one under its locks does to the rows what the one-step transaction does |
| Gate.OpeningKeepsChecks | control-server/src/services/sessions.ts:394-396 | a commit by one connect invalidates no check of any other process, because of the locks both hold |
| Gate.RewritingKeepsChecks | control-server/src/services/deviceAccess.ts:83-98 | rewriting a device row under its owner's lock invalidates no check of any other process |
| Calendar.FormulaCountsDays | control-server/src/services/egressBudgetMath.ts:22-25 | counting days month by month by the Gregorian rule agrees with the closed formula of ECMA-262 for every year |
| Calendar.MonthsByTable | control-server/src/services/egressBudgetMath.ts:22-25 | the months of every year begin where the standard's table of days puts them |
| BillingCycle.CycleStart | control-server/src/services/egressBudgetMath.ts:33-57 | the start computed with the mutable year and month is the specification's |
| BillingCycle.CycleEnd | control-server/src/services/egressBudgetMath.ts:60-69 | the end computed with carry over the year is the specification's |
| BillingCycle.CycleContainsNow | control-server/src/services/egressBudgetMath.ts:33-69 | from the anchor's day on the cycle contains now and is 28 to 31 days long |
| BillingCycle.CyclesBeginOnAnniversaries | control-server/src/services/egressBudgetMath.ts:22-69 | a cycle and the next one begin on the anchor's day of the month, or on the last day of a month that has no such day, one month apart |
| BillingCycle.CyclesAreMonotone | control-server/src/services/egressBudgetMath.ts:33-69 | later instants compute later cycles, and the same one exactly until it ends |
| BillingCycle.CyclesMeet | control-server/src/services/egressBudgetMath.ts:33-69 | the cycle computed at a cycle's end starts there: no gap, no overlap |
| BillingCycle.ContainsNowIff | control-server/src/services/egressBudgetMath.ts:33-57 | the cycle contains every instant from the anchor's day on if and only if the anchor's year is 100 or later |
| Orders.PaidAndGrantedAtMostOnce | control-server/src/services/billing.ts:540-610 | over all careful runs of events, marking, cancelling, expiry and revival an order is paid, granted and redeemed at most once |
| Orders.FinishedOrdersAreGranted | control-server/src/services/billing.ts:556-590 | when no payment is half done exactly the paid and refunded orders were granted, and their known codes redeemed |
| Orders.CounterCountsRedemptions | control-server/src/services/promo.ts:159-192 | in every run a promo's counter is the number of its redemption rows |
| Orders.FailedCheckoutIsHarmlessIff | control-server/src/services/billing.ts:512-520 | the unguarded FAILED write keeps payments single if and only if the order is neither paid nor refunded; otherwise one repeated event pays and grants again |
| Orders.GrantedTwice | control-server/src/services/billing.ts:512-520 | a run from any initial state in which one order is claimed and granted twice |
| Orders.UngrantedIff | control-server/src/services/billing.ts:540-610 | in every careful run a paid or refunded order is without its grant exactly while a process is between the claim and the grant, and without its redemption of a known code exactly while a process still has it to write |
| Orders.StrandedForever | control-server/src/services/billing.ts:540-610 | an order whose process stopped between claim and grant is granted by nothing else in any careful continuation, while the step not taken would have done it |
| Orders.PaymentIsItsSteps | control-server/src/services/billing.ts:540-610 | a payment nobody interrupts is what its five statements come to |
| Orders.RepeatedEventIsIgnored | control-server/src/services/billing.ts:878-913 | an event delivered again right after it was handled changes nothing |
| Orders.SuccessDecides | control-server/src/services/billing.ts:878-913 | whatever events arrive in whatever order, an unpaid order is granted once if a success is among them and never otherwise |
| Orders.OrderBook.MarkOrderPaid | control-server/src/services/billing.ts:540-610 | a PENDING order, or on request a FAILED or CANCELLED one, becomes PAID, is granted once and has its known code redeemed; otherwise the error says why and nothing changes |
| Orders.OrderBook.RedeemPromo | control-server/src/services/promo.ts:159-192 | the counter rises by one exactly when the order's row is new and the code known; nothing else changes, and counters stay equal to the rows |
| Orders.OrderBook.MarkOrderFailed | control-server/src/services/billing.ts:733-747 | exactly a PENDING order gets the given status; every other is as it was |
| Orders.OrderBook.ExpireStaleOrders | control-server/src/services/billing.ts:674-680 | no stale order is left PENDING, and an order that was not PENDING or is not stale is as it was |
| Orders.OrderBook.MarkOrderRefunded | control-server/src/services/billing.ts:755-769 | exactly a PAID order becomes REFUNDED; every other is as it was |
| Orders.OrderBook.HandleEvent | control-server/src/services/billing.ts:878-913 | which events are handled, and the status each leaves the order in |
| Subscriptions.Account.GrantPlan | control-server/src/services/billing.ts:133-200 | exactly the current rows of the plan's tier and below, or all when replacing, end; the new row lasts the plan's days from now when replacing, and from the greatest expiry among the rows taken over, or now, when extending; limits only grow; Free is refused |
| Subscriptions.TiersStayDistinct | control-server/src/services/billing.ts:150-187 | across any run of uninterrupted grants current rows have pairwise distinct tiers |
| Subscriptions.StaleWriteKeepsTiersIff | control-server/src/services/billing.ts:150-187 | a write after an outdated read keeps tiers distinct if and only if it took over every current row of its tier |
| Subscriptions.OverlappingGrantsCollide | control-server/src/services/billing.ts:150-187 | two grants that both read before either wrote leave two current rows of one tier |
| Subscriptions.ExtendNeverShortens | control-server/src/services/billing.ts:150-163 | extending never lowers the latest expiry at tier k or above, for any k |
| Subscriptions.NoDayIsLost | control-server/src/services/billing.ts:150-163 | a run of extends of non-decreasing tiers ends no earlier than the first grant plus all days granted |
| Quota.ChainStart | control-server/src/services/entitlements.ts:191-206 | the loop finds the oldest row of the contiguous chain within the look-back |
| Quota.AnchorIs | control-server/src/services/entitlements.ts:191-206 | the anchor is the end of the whole chain, cut off at 36 rows |
| Quota.RenewalKeepsAnchorIff | control-server/src/services/entitlements.ts:180-206 | a renewal keeps the anchor if and only if it is contiguous and the chain before it is shorter than 36 rows |
| Quota.WindowsTile | control-server/src/services/entitlements.ts:151-156 | every instant from the anchor on lies in exactly one window of thirty days, the one computed for it |
| Quota.BucketCounts | control-server/src/services/quota.ts:46-56 | a bucket adds its bytes in both directions to the usage of the window it starts in, and nothing to any other |
| Quota.WindowsConserveTraffic | control-server/src/services/quota.ts:46-56 | the windows together count all traffic since the anchor exactly once |
| Quota.RenewalKeepsUsage | control-server/src/services/quota.ts:46-56 | a renewal in time leaves the usage of the current window as it was |
| Pricing.UnderstoodIff | control-server/src/services/pricing.ts:309-315 | a text is understood as a currency if and only if, spaces around it and case apart, it spells one that is held |
| Pricing.PriceIsListed | control-server/src/services/pricing.ts:329-348 | the price is that of the first row in the currency asked for, in that currency, if there is one and it is not the plan's own; the plan's own price otherwise; nothing for a free plan |
| Pricing.CurrencyDeterminesPrice | control-server/src/services/pricing.ts:329-348 | two requests answered in the same currency are answered with the same price |
| Pricing.ApplyPromo | control-server/src/services/promo.ts:94-153 | a code is accepted if and only if it is active, in time, eligible and within its limits, takes something off and leaves more than the floor; then discount and charge add up to the price |
| Pricing.DiscountIs | control-server/src/services/promo.ts:138-142 | the discount is the percentage rounded half up unless the floor takes some of it back |
| Pricing.CreateOrder | control-server/src/services/billing.ts:398-445 | for site, bot and trial alike an order is possible if and only if the plan is active, public or asked for by the trial, and paid, priced in the gateway's currency, and the code, when given, is accepted; then charge and discount add up |
| Pricing.ChargedIs | control-server/src/services/billing.ts:398-445 | with a gateway that settles in one currency the order costs, before its discount, the plan's own price if it is in that currency, else the first row in it, and is refused when there is neither; otherwise what the plan costs in the currency asked for |
| Pricing.PlaceOrder | control-server/src/services/billing.ts:447-509 | an open order for the same amount is handed out again, or its settlement reported, exactly while its payment can be made; otherwise a fresh one is opened |
| Pricing.QuoteIsTheCharge | control-server/src/routes/billing.ts:237-279 | whenever an order with a code is created, the quote for the same code and state exists and announces the amount charged |
| Pricing.QuoteShows | control-server/src/routes/billing.ts:237-279 | a code is quoted if and only if the plan is active and the code applies to the charge; the card shows the price in the currency asked for or the visitor's own, and beside another charge the rounded percentage of it |
| Pricing.ChargeAndDiscountAddUp | control-server/src/services/billing.ts:412-433 | charge plus discount is what the order without the code would have charged, in the same currency |
| Pricing.ShownStaysPositive | control-server/src/routes/billing.ts:254-262 | the discounted price on the card is at least one minor unit |
| LinkAuth.MintedOncePerRequest | control-server/src/services/linkAuth.ts:248-296 | at most one mint per request, for the user of its winning approval, for a poller that offered its secret |
| LinkAuth.OverStaysOver | control-server/src/services/linkAuth.ts:84-98 | used, denied and expired requests are never approved again, and the first winning approval is the only one |
| LinkAuth.LinkRequests.SettleExpiry | control-server/src/services/linkAuth.ts:90-98 | uninterrupted, a pending request past its time becomes EXPIRED and no other changes |
| LinkAuth.LinkRequests.ApproveLink | control-server/src/services/linkAuth.ts:187-219 | succeeds exactly on a pending request before its time, which it gives to the user; every refusal says why and at most expires the request |
| LinkAuth.LinkRequests.DenyLink | control-server/src/services/linkAuth.ts:221-236 | exactly a pending request before its time becomes DENIED |
| LinkAuth.LinkRequests.StartLink | control-server/src/services/linkAuth.ts:107-145 | a new request waits exactly for its five minutes |
| LinkAuth.LinkRequests.PollLink | control-server/src/services/linkAuth.ts:248-296 | each outcome exactly when: unknown without the secret, slow down without touching anything, tokens for the approver if minting succeeds, and the request is used either way |
| DeviceAccess.TokensDieForGood | control-server/src/middleware/auth.ts:48-56 | a token accepted once and then refused is not accepted in any later state, reactivation included |
| DeviceAccess.RefusedStaysRefused | control-server/src/services/deviceAccess.ts:38-76 | no run of registrations, rotations, revocations, enforcement or purges revives a refused token |
| DeviceAccess.TokensEnd | control-server/src/middleware/auth.ts:48-56 | a device accepts its owner's token of the present epoch while it is active and no other; revocation, enforcement, rotation and reactivation refuse all tokens minted before |
| DeviceAccess.RegistrationRespectsLimit | control-server/src/services/deviceAccess.ts:56-66 | the number of active devices grows only while it is below the account's limit |
| DeviceAccess.AllowanceIsMet | control-server/src/services/deviceAccess.ts:151-190 | enforcement leaves exactly as many devices as allowed and touches no other account |
| DeviceAccess.OldestStay | control-server/src/services/deviceAccess.ts:161-187 | no device that stays was registered after one that goes |
| DeviceAccess.DeviceTable.RegisterDeviceSlot | control-server/src/services/deviceAccess.ts:11-76 | the one row that changes: a new slot, a renamed one, or one with the key and a new epoch; the refusals in terms of the rows; a slot more only below the account's limit and 20, or as its only one |
| DeviceAccess.DeviceTable.RevokeDeviceAccess | control-server/src/services/deviceAccess.ts:83-98 | an active device of the caller becomes inactive with the next epoch, any other row is untouched |
| DeviceAccess.DeviceTable.EnforceDeviceAllowance | control-server/src/services/deviceAccess.ts:151-190 | exactly the devices after the oldest allowed ones, of which there is always one, become inactive with the next epoch |
| Smtp.ChunkingIsInvisible | control-server/src/services/mailer.ts:76-95 | however the stream is cut, the completed replies and the residual buffer and lines are those of one call on the whole |
| Smtp.RepliesAreRead | control-server/src/services/mailer.ts:76-95 | what a server sends is what is read: every reply in its order, with the number that begins its last line and all its lines, and nothing is left over |
| Smtp.ParseLeavesNoLineEnd | control-server/src/services/mailer.ts:77-95 | no complete line is left in the buffer |
| Smtp.NothingDroppedIff | control-server/src/services/mailer.ts:89-91 | a caller that asks again after each reply gets all of them if and only if no chunk completes two |
| Smtp.SmtpConnection.OnData | control-server/src/services/mailer.ts:76-95 | one chunk: the residue, and the first completed reply goes to the waiting caller |
| Smtp.Converse | control-server/src/services/mailer.ts:76-125 | a caller that reads again after each answer while chunks come in is given the first reply of each chunk that completes one, and nothing after a failure |
| Smtp.EncodeBody | control-server/src/services/mailer.ts:184-191 | the loop yields the lines of the wrapping |
| Smtp.LinesAreFull | control-server/src/services/mailer.ts:183-191 | lines have at most 76 columns and all but the last exactly 76 |
| Smtp.UnwrappingRestores | control-server/src/services/mailer.ts:184-191 | the lines put together are the encoded text |
| Smtp.TerminatorOnlyAtEnd | control-server/src/services/mailer.ts:14-16 | the end-of-data sequence occurs after the body and nowhere in it, so nothing has to be escaped |
| Ipv4.Accumulate | control-server/src/lib/ip.ts:11 | a shift and an or on 32 signed bits append an octet and drop what leaves the word |
| Ipv4.ParseIp | control-server/src/lib/ip.ts:3-14 | the loop accepts exactly four octets of one to three digits and returns their unsigned value |
| Ipv4.ParsesIff | control-server/src/lib/ip.ts:3-14 | a text is read as an address if and only if, white space around it apart, it is four numbers of one to three digits up to 255 with dots between them, and as the number they make |
| Ipv4.Octet | control-server/src/lib/ip.ts:16-24 | shift and mask extract the octet |
| Ipv4.IpRoundTrip | control-server/src/lib/ip.ts:3-24 | printing any number wrapped to 32 bits and parsing it gives it back |
| Ipv4.NormalForm | control-server/src/lib/ip.ts:3-24 | printing after parsing is an idempotent normal form: two texts have the same one exactly when they mean the same address |
| Ipv4.MaskedIs | control-server/src/lib/ip.ts:36-37 | masking on 32 signed bits rounds down to a multiple of the block's size |
| Ipv4.InCidrIff | control-server/src/lib/ip.ts:63-67 | an address is in the block if and only if it lies in its range |
| Ipv4.UsableHostIps | control-server/src/lib/ip.ts:53-60 | the addresses from after the reserved hosts up to the last but one |
| Ipv4.AllListed | control-server/src/lib/ip.ts:53-60 | with one reserved host the texts returned spell exactly the client addresses in order |
| Ipv4.PoolIsSound | control-server/src/lib/ip.ts:53-67 | size - 3 pairwise distinct addresses, all inside the block, none the network, gateway or broadcast address |
| Ipv4.PoolIsComplete | control-server/src/lib/ip.ts:53-67 | every other address of the block is in the pool |
| Analytics.LayGrid | control-server/src/services/accountInsights.ts:108-112 | the grid is exactly the bucket starts from the window's start to now |
| Analytics.BucketIsBelow | control-server/src/services/insightMath.ts:61-63 | outside the years 0 to 99 a bucket is the whole UTC hour or day in which the instant lies |
| Analytics.WindowStartIs | control-server/src/services/insightMath.ts:34-39 | outside the years 0 to 99 the window starts with the current day, the last Monday, or the first of the month |
| Analytics.PreviousIs | control-server/src/services/insightMath.ts:47-56 | outside the years 0 to 99 the window before starts a day, a week or a calendar month earlier and has lasted as long, cut at the start of the current one |
| Analytics.AccountAnalytics | control-server/src/services/accountInsights.ts:100-135 | totals, comparison, series and devices are the sums of the rows they are about |
| Analytics.ThreeWayConservation | control-server/src/services/accountInsights.ts:113-135 | totals equal the sum over the series and the sum over the devices, in both directions |
| Analytics.SeriesIsTheGrid | control-server/src/services/insightMath.ts:34-63 | every row of the window falls on a bucket laid before the fold if and only if the window does not reach back into the years 0 to 99 from a later now |
| Analytics.WindowsAreSeparate | control-server/src/services/insightMath.ts:34-56 | rows of the previous window are never counted in the current one, in any year |
| Analytics.WindowsDoNotOverlap | control-server/src/services/insightMath.ts:34-56 | the previous window ends before the current one starts and is no longer than what has passed of it, if and only if now is outside the years 0 to 99 |

## Left out

Modelled as assumptions or abstracted:

- The order of the command queue is the order of creation; ties of `created_at`, and rows whose creation time is older than the order of commits, are not modelled.
- Each transaction but the claim is a single step of `Protocol`, and so is the handling of a report. Between the statements of `closeSession`, of a claim, of the acknowledgement handler and of the monitor's reclaim anything may happen; what the first statement of a claim wrote is taken to be visible at once, and that a claim skips rows another statement has locked at that moment is not modelled. `Gate` splits the transactions that rely on locks.
- `Gate` takes user and node limits as fixed, and leaves the account's status and the node's heartbeat to `Abort`.
- `Agreement` is about runs without loss: a node executes its commands in order and once, its acknowledgements arrive, removals succeed and are not overtaken, and no sweep finds a stale command. What holds after other runs is in `Overtaken` and `Repair`.
- `Exclusive` is about runs in which all acknowledgements of one command agree, which the code does not enforce, and in which what a reclaim frees is held by no live session that needs it; `Leases` and `Sharing` assume neither.
- Agents acknowledge only commands they have been given: `completeCommand` accepts the id of any command of the node, one that still waits included.
- `Counters` has no other writer of the byte counters of tunnels than the report handler.
- A node's `online` flag stands for a fresh heartbeat and reported peers below capacity; a tunnel address stands for its place in the database's order.
- The three attempts of `createSessionWithLease` after a lease was taken concurrently: under the node's row lock the lease found free is still free.
- Uniqueness of device keys, of lease rows per node and address and of redemption rows per order are constraints of the database.
- The agent's WireGuard tool is a table from key to address; a failed call leaves it unchanged. That the kernel takes an address away from the peer that had it is not modelled.
- Instants are unbounded integers of milliseconds; the range limits of JavaScript dates and doubles are not modelled.
- Quota.RenewalKeepsAnchorIff: creation times of one account's rows of one plan are taken to differ.
- Ipv4.PoolIsSound: the prefix is given as the number that the text after the slash stands for; the spellings JavaScript's Number() accepts are not modelled.
- Pricing.UnderstoodIff: upper case is modelled for letters that can turn into A to Z.
- DeviceAccess.DeviceTable.RegisterDeviceSlot: the row or twin the queries found, and the order of the active devices, are inputs constrained to be right answers.
- LinkAuth.MintedOncePerRequest: the hash of the poll secret stands for the secret, so it is as good as the hash.

Not modelled:

- Logging out everywhere deletes device rows without queueing removals; such runs are excluded from `Agreement`, as is the mass drain of sessions.
- Audit records, rate limits, notifications, refresh tokens, account deletion, tier names and node choice.
- VLESS and browser sessions, traffic shaping and the gateway's policy file.
- Gateways, GeoIP, Turnstile, Telegram and SMTP as services: their answers are arbitrary inputs.
- Hashes, signatures, random codes and identifiers: fresh or arbitrary values.
- `normalizeCode`, promo code spelling, device and plan names, labels, favicons, domain categories and country tables.
- The reasons for closing a session that need a subscription, a quota or a heartbeat are one input set of `ControlPlane.Tables.MonitorTick`.
