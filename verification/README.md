# A verified model of the GPU control plane

The repository rents whole-GPU virtual machines: `main-api` owns the slot table, the instance
table and the credit ledger; a `compute-agent` on each host creates and destroys machines; an
`ssh-proxy` keeps one multiplexed session per host. This project models the stateful parts of
the three services in Dafny and proves properties of every run.

`dafny verify dfyconfig.toml` checks everything.

## What is modelled

- **Slots, instances and the create saga.** `SlotTable` and `InstanceTable` give each SQL
  statement its meaning as a function on tables; `SlotRepo`, `InstanceRepo`, `AgentStream` and
  `CreateSaga` are the Go methods, one transaction each, over the mutable `Database`, proved
  against those functions. `ControlPlane` interleaves the same transactions as steps of one
  machine with any number of create requests in flight, crashes and boot recovery, and
  `ControlPlaneRuns` proves what holds of all its runs: GPU exclusivity, who owns each reserved
  row, agreement of slot and instance row, finality of a release, the audit log. `SagaRuns` proves
  all-or-nothing of every request in every such run. `SshKeys` merges the key lists a request
  carries.
- **The agent's operation protocol.** `OpProtocol` has one class for the locked regions of
  `acquireOp` and `release`, and a machine in which every lock, cancel, wait, send and channel
  close of every goroutine is a step, as is the death of the process. `OpProtocolRuns` proves the
  mutex with its one preemption, the order of reports, and that every run ends; `OpProtocolReports`
  proves what each create and destroy tells main-api. `Composed` puts one agent and main-api
  together.
- **The ssh-proxy's session registry.** `MuxRegistry` and `MuxRegistryRuns`: no ghost sessions,
  no deadlock by induction on insertion order, and a bound on every run without new calls.
  `MuxRegistryProgress`: under a fair scheduler every call returns while new calls keep arriving.
- **Rate limiter.** `RateLimiter`: in-place compaction in a Go slice over a backing array, lazy
  sweep, against a limiter that keeps every hit.
- **Ledger and billing.** `CreditLedger`, `BillingKey`, `Billing`, `BillingWorker`.
- **Two TTL caches in a row.** `AuthCache`, `AuthCacheRuns`.
- **Profiles and PCI addresses.** `Profile` resolves a layout and feeds the exclusivity theorem;
  `Hostdev` (with `ListMaps`) prints and parses passthrough addresses.

The shape is the same throughout: imperative methods are tied by their contracts to functions,
and lemmas prove what the source promises about those functions and about all runs. A parameter
called `fault` says how many statements the database still serves before it fails; every
transaction is proved for every value of it.

## What the code does not keep

Some statements one would like to make are false of the code. Each is given here with the exact
condition that is proved instead.

- *A slot is in_use exactly when it has a holder.* The foreign key from slot to instance is
  `on delete set null`, so deleting a row that still holds slots leaves them in_use without a
  holder, and nothing frees them again (`DeleteCanStrand`, `StrandedForever`). It holds if and
  only if every deleted row held nothing at that moment (`StrandedIff`).
- *A STOPPED report makes the row terminal.* Only if the row was not provisioning or running just
  before (`StoppedLandsIff`); that is so unless handling one of the instance's reports failed
  (`StoppedLands`). A rejected STOPPED still releases the slots (`RejectedStillReleases`), and a
  run from boot reaches such a row: running, and holding no slot (`RunningWithoutSlots`). Once
  its create has bound them, an instance has its slots if and only if nobody has released or
  removed it since, and otherwise it has none (`SagaOutcome`).
- *A billed minute is charged once.* A recharge chooses its own key and can take a minute's key
  first (`RechargeCanShadow`). A minute is charged if and only if a worker posted its key first
  (`WonIff`), so always when no recharge uses a key of that form (`UnshadowedWins`).
- *A token is accepted at most two ttls after it was last active.* Expiry is counted from the
  moment of storing, not of matching, so the time requests spend in flight comes on top. This
  holds of every run if and only if that time is zero, or at most one tick with both caches on
  (`TtlsSufficeIff`). In general the staleness is at most the time in flight plus each ttl less a
  tick (`AcceptedWasActive`), and for every setting a run is that stale (`StalestRun`).
- *`trimHex` pads its result to the sysfs widths.* It only removes the prefix: `0:1:2.3` comes back
  as it was given (`ShortStaysShort`). The result has the widths if and only if each attribute had
  its width already (`WidthsIff`, `BuiltWidthsIff`).
- *Rows are removed when the agent reports stopped*, says the delete handler's comment. No report
  removes a row; a row is gone if and only if a later delete, of a terminal row, was carried out
  (`RowGoneIff`).

## Assumptions

- Each database transaction is one atomic step. For `Transition`, which reads without a row lock
  (services/main-api/internal/instance/repo.go:110-136), and for `SyncFromProfile`, which does not
  take the node's advisory lock (services/main-api/internal/slot/repo.go:219-230), this is an
  assumption; elsewhere locks and constraints give it.
- An error from a commit means that nothing was committed.
- Ids that the database draws are fresh. They are numbers from a counter; billing keys use the
  printed 128-bit form.
- Text is ordered by code point; the database's collation is not modelled.
- Clocks do not go back, and the two processes with auth caches share one.
- Amounts and times are mathematical integers. Truncating division is written out.
- One main-api process; reports of one agent are handled in the order they were sent.

## Model

| member | source | states |
|---|---|---|
| `Lifecycle.StepsClimb` | services/main-api/internal/instance/state.go:34-64 | A transition that changes the state raises a rank, so the machine has no cycle; a state is terminal if and only if nothing but itself can follow it. |
| `Lifecycle.WhatFollows` | services/main-api/internal/instance/state.go:34-64 | What can follow a state: itself, the next stage, a failure of anything not yet over, stopped after pending, and stopping after provisioning; nothing else. |
| `Lifecycle.AtMostFourChanges` | services/main-api/internal/instance/state.go:34-64 | However many retries a history holds, the state really changes at most four times. |
| `SlotTable.BeforeIsOrder` | services/main-api/internal/db/dbstore/slots.sql.go:219-235 | The ORDER BY of the reservation is a strict order, and two slots it cannot separate have the same index, so the pick is well defined. |
| `SlotTable.StringLessIff` | services/main-api/internal/db/dbstore/slots.sql.go:219-235 | Text is compared by the first character that differs, and a proper prefix is smaller. |
| `SlotTable.BeforeIff` | services/main-api/internal/db/dbstore/slots.sql.go:219-235 | One row may be taken while another is left if and only if it is an NVLink row or the other is plain, of two NVLink rows the other's domain is not smaller, and with equal domains the other's index is not smaller. |
| `SlotTable.PickedIsUnique` | services/main-api/internal/db/dbstore/slots.sql.go:219-235 | When slot indices are unique on the node, the set of rows a reservation takes is determined: the first min(limit, available) eligible rows of the order. |
| `SlotTable.OneReserve` | services/main-api/internal/slot/repo.go:95-134 | A single-slot reservation fails only if nothing is eligible, and otherwise removes exactly its own slot from what is eligible. |
| `SlotTable.DrawsMin` | services/main-api/internal/slot/repo.go:95-134 | Draws without replacement: after n of them the successes number min(n, initial size), all distinct. |
| `SlotTable.ExactlyMinSucceed` | services/main-api/internal/slot/repo.go:95-134 | N single-slot reservations against M eligible slots: exactly min(N, M) succeed, on that many distinct slots out of the M, and exactly those stop being eligible. |
| `SlotTable.InsertNext` | services/main-api/internal/db/dbstore/slots.sql.go:84-88 | Inserting the next reported slot extends the table by one row, and the unique index refuses it if and only if an earlier slot of the same report has its index. |
| `SlotRepo.SlotRepo.First` | services/main-api/internal/db/dbstore/slots.sql.go:219-235 | Returns a row that comes first: NVLink before plain, then the smaller domain, then the smaller index. |
| `SlotRepo.SlotRepo.PickFree` | services/main-api/internal/db/dbstore/slots.sql.go:219-235 | Picks distinct free rows of the node and size, as many as asked or all there are. A plain row is taken only when every NVLink row is; no NVLink row is left whose domain is smaller than a taken one's; with equal domains a row left has the larger index. |
| `SlotRepo.SlotRepo.Reserve` | services/main-api/internal/slot/repo.go:95-134 | Succeeds if and only if the count is positive, the database answers and at least that many eligible slots exist. Then exactly the picked rows become reserved, NVLink slots first, then by domain, then by index; otherwise nothing changes and the error says why. |
| `SlotRepo.SlotRepo.BindToInstance` | services/main-api/internal/slot/repo.go:139-151 | All or nothing: every slot of the reservation becomes in_use by the instance if and only if all are still reserved, pairwise distinct and the instance row exists; otherwise the table is untouched. |
| `SlotRepo.SlotRepo.ReleaseReserved` | services/main-api/internal/slot/repo.go:155-161 | Frees exactly the rows of the reservation that are still reserved; bound rows are left alone. |
| `SlotRepo.SlotRepo.ReleaseForInstance` | services/main-api/internal/slot/repo.go:165-167 | Frees exactly the rows held by the instance and returns how many. |
| `SlotRepo.SlotRepo.RecoverOrphanReservations` | services/main-api/internal/slot/repo.go:175-177 | Frees every row that is reserved without a holder and nothing else. |
| `SlotRepo.SlotRepo.InsertSlots` | services/main-api/internal/slot/repo.go:238-249 | Inserts every reported slot as a free row, or reports failure if a size is not positive, an index repeats or a statement fails. |
| `SlotRepo.SlotRepo.SyncFromProfile` | services/main-api/internal/slot/repo.go:203-252 | Replaces the rows of the node if and only if the node exists, the hash is new, every row of the node is free, every reported size is positive and no index repeats; then reported slot k has a free row with its index, size, GPUs and domain, and the other nodes' rows are as before. Each other outcome has its exact condition and changes nothing. |
| `InstanceTable.CreateReplays` | services/main-api/internal/instance/repo.go:47-85 | Inserting a row together with its first event keeps every audit log replaying to its row. |
| `InstanceTable.TransitionReplays` | services/main-api/internal/instance/repo.go:99-157 | A transition keeps every audit log a chain from nothing through pending, each `from` the previous `to`, ending at the row's state. |
| `InstanceTable.DeleteReplays` | services/main-api/internal/db/dbstore/instances.sql.go:74-76 | Deleting a row with its cascaded events keeps the other logs replaying. |
| `InstanceTable.AuditBound` | services/main-api/internal/instance/repo.go:99-157 | The states a row has visited, read off its log, form a legal history, so they change at most four times. |
| `InstanceTable.TransitionEvolves` | services/main-api/internal/db/dbstore/instances.sql.go:261-268 | A transition keeps node, owner, size and slot indices of every row, climbs the rank, leaves terminal rows terminal and never erases an address or an error message; other rows are untouched. |
| `InstanceRepo.InstanceRepo.Insert` | services/main-api/internal/instance/repo.go:47-85 | Row and creation event are inserted together if and only if the database answers, the row passes the table's checks, and its node and (if it has one) its owner exist; otherwise nothing changes. |
| `InstanceRepo.InstanceRepo.Transition` | services/main-api/internal/instance/repo.go:99-157 | Succeeds if and only if the row exists, the step is allowed (and is not a skipped repeat) and the database answers; then the row gets the state, and the address and the error if there are new ones, and one event records from, to and reason; each error leaves both tables as they were. |
| `InstanceRepo.InstanceRepo.Remove` | services/main-api/internal/db/dbstore/instances.sql.go:74-76 | Removes the row and its events; slots it still holds lose their holder and keep their status (foreign key ON DELETE SET NULL). |
| `AgentStream.AgentStreamService.ApplyInstanceStatus` | services/main-api/internal/grpc/agent_stream.go:229-268 | Report by report: PROVISIONING moves a pending row, RUNNING a provisioning one, STOPPING a provisioning or running one, STOPPED a pending or stopping one, FAILED any but a stopped one, each with the reported address and error (a repeat refreshes those); any other row stays as it is. STOPPED and FAILED free the instance's slots whether or not the row moved; an unknown wire state, a missing row or a failed transaction frees nothing. |
| `AgentStream.HeardRow` | services/main-api/internal/grpc/agent_stream.go:398-413 | What each wire state makes of the row, state by state. |
| `AgentStream.AgentStreamService.Reap` | services/main-api/internal/grpc/agent_stream.go:305-328 | Exactly the pending, provisioning and running instances of the node whose transition commits become failed, and exactly their slots are freed if the release commits; an error of one does not stop the others, and a failed listing reaps nobody. |
| `AgentStream.AgentStreamService.ReapAll` | services/main-api/internal/grpc/agent_stream.go:311-327 | The loop over the listed instances. |
| `AgentStream.AgentStreamService.ReapOne` | services/main-api/internal/grpc/agent_stream.go:311-327 | One instance of the sweep: failed and freed, or left alone when its transition fails. |
| `AgentStream.AgentStreamService.Delete` | services/main-api/internal/api/admin_instances.go:402-448 | A terminal row is released and removed, and with a live database that strands nothing; if only the release fails the slots keep their status and lose their holder. Any other row moves to stopping if the machine allows it, and the destroy is sent unless the transition broke; an agent that is not connected is no error, any other dispatch error is answered 502 and leaves the row moved. |
| `AgentStream.FailedNext` | services/main-api/internal/grpc/agent_stream.go:311-327 | Failing one more instance of the sweep adds exactly its row to the failed ones. |
| `AgentStream.FreedNext` | services/main-api/internal/grpc/agent_stream.go:311-327 | Freeing one more instance of the sweep adds exactly its slots to the freed ones. |
| `CreateSaga.ResolvePassthroughPci` | services/main-api/internal/api/admin_instances.go:372-397 | Answers if and only if a topology is stored and it knows every listed GPU. The answer consists of one stretch for each listed index, in order and without gaps: the PCI address of the last GPU reported under that index, then all its companions. |
| `CreateSaga.ListsOnce` | services/main-api/internal/api/admin_instances.go:385-394 | Only one list is laid out that way. |
| `CreateSaga.IndexGpus` | services/main-api/internal/api/admin_instances.go:380-383 | A GPU reported later replaces an earlier one of the same index. |
| `CreateSaga.ReleaseUndoesReserve` | services/main-api/internal/slot/repo.go:155-161 | Releasing a reservation of free rows restores the table exactly. |
| `CreateSaga.ReleaseUndoesBind` | services/main-api/internal/slot/repo.go:165-167 | Releasing an instance that held nothing before its bind restores the table exactly. |
| `CreateSaga.InstanceHandlers.ReserveAndResolve` | services/main-api/internal/api/admin_instances.go:317-339 | Either one slot of the right size is reserved and its GPUs resolve to the returned list, or, if the compensation commits, the slots are as they were. |
| `CreateSaga.InstanceHandlers.RunCreate` | services/main-api/internal/api/admin_instances.go:230-278 | One request by itself (SagaOutcome has the interleavings): all or nothing at every failure point. On success the picked slot is in_use by the new pending instance, whose row carries the requester as owner and names the slot, and the dispatched list is that slot's GPUs, each followed by its companions. On refusal, if the compensations commit, every slot is as before and an inserted row is failed, with what went wrong as its error. It succeeds only if node and owner exist and every transaction and the dispatch go through, and whenever they do and the topology knows the GPUs of every candidate slot. |
| `CreateSaga.InstanceHandlers.InsertAndBind` | services/main-api/internal/api/admin_instances.go:240-278 | What follows the reservation, with the compensation of each step. |
| `CreateSaga.InstanceHandlers.MarkFailed` | services/main-api/internal/api/admin_instances.go:361-366 | The row becomes failed with the given error; nothing else of it changes. |
| `CreateSaga.InstanceHandlers.BindAndDispatch` | services/main-api/internal/api/admin_instances.go:259-275 | The second half of the saga with its two compensation branches. |
| `CreateSaga.InstanceHandlers.RunCreatePlain` | services/main-api/internal/api/admin_instances.go:230-278 | Without GPUs no slot is read or written; the new row is the requester's, and a failed dispatch leaves it failed. |
| `SagaRuns.FateInRun` | services/main-api/internal/api/admin_instances.go:230-278 | In every run, whatever is interleaved, a request's instance holds at most the request's own slots; none before the bind, and none after a failure whose compensations went through. |
| `SagaRuns.HoldsInRun` | services/main-api/internal/api/admin_instances.go:259-278 | From its bind on, a request's instance has all of the request's slots until somebody releases or removes it ... |
| `SagaRuns.LosesAllInRun` | services/main-api/internal/slot/repo.go:165-167 | ... and after that it has none, in every run. |
| `SagaRuns.OutcomeIff` | services/main-api/internal/api/admin_instances.go:230-278 | In every run a request has succeeded if and only if its dispatch went through, and is being undone or over in failure if and only if one of its steps failed. |
| `SagaRuns.SagaOutcome` | services/main-api/internal/api/admin_instances.go:230-278 | All or nothing in every run with any number of concurrent requests: a request that ended in failure with its compensations gone through owns no reserved row, its instance holds nothing and its row is terminal or gone; the instance of one that is dispatching or succeeded holds exactly the request's slots if nobody has released or removed it since the bind, and none otherwise. |
| `SshKeys.MergeSshPubkeys` | services/main-api/internal/api/admin_instances.go:208-226 | The result is the two lists one after the other without repeats. |
| `SshKeys.Extend` | services/main-api/internal/api/admin_instances.go:211-224 | One loop: the result and the seen set grow by exactly the new keys, in order. |
| `SshKeys.MergedIsUnion` | services/main-api/internal/api/admin_instances.go:205-207 | That list holds the same keys as the two lists, each once. |
| `SshKeys.MergedInOrder` | services/main-api/internal/api/admin_instances.go:205-207 | A key stands after exactly the distinct keys that occur before its first occurrence. |
| `Profile.Claim` | services/compute-agent/internal/profile/profile.go:106-135 | One slot's GPU checks: either an error that is true of the layout, or all its GPUs are known and new and the claimed set grows by exactly them. |
| `Profile.ExplainedIsDefect` | services/compute-agent/internal/profile/profile.go:106-135 | Each error value names a real defect of the layout. |
| `Profile.Resolve` | services/compute-agent/internal/profile/profile.go:89-143 | Accepts if and only if the first layout with the active name exists and is acceptable: every slot has positive size equal to its GPU list, all GPUs known and globally distinct, non-empty NVLink domains distinct; otherwise the error is true of the layout. |
| `Profile.Check` | services/compute-agent/internal/profile/profile.go:106-143 | The loop of Resolve: accepts exactly the acceptable layouts. |
| `Profile.FlatAt` | services/compute-agent/internal/profile/profile.go:106-135 | Where a slot's GPU stands in the concatenation of all GPU lists. |
| `Profile.Pigeonhole` | services/compute-agent/internal/profile/profile.go:89-143 | An accepted layout never promises more GPUs than the host has distinct ones. |
| `Profile.SlotsDisjoint` | services/compute-agent/internal/profile/profile.go:118-127 | Two slots of an accepted layout share no GPU. |
| `Profile.Proto` | services/compute-agent/internal/profile/profile.go:147-162 | The wire form numbers the slots in order and keeps size, GPUs and domain. |
| `Profile.ToProfileSlots` | services/main-api/internal/grpc/agent_stream.go:372-383 | main-api reads back the wire form unchanged. |
| `Profile.WireIsGood` | services/main-api/internal/slot/repo.go:238-249 | What an agent sends for an accepted layout passes the table's constraints, and its slots name pairwise disjoint GPUs. |
| `ControlPlane.StepKeeps` | services/main-api/internal/slot/repo.go:95-252 | Every action (reserve, insert, bind, dispatch, the compensations, reports, reaper, delete, sync, crash, recovery), in any interleaving of any number of create requests, keeps the invariant. |
| `ControlPlane.SagaMoves` | services/main-api/internal/api/admin_instances.go:230-278 | A step that moves one request and no table keeps the invariant. |
| `ControlPlane.ReserveKeeps` | services/main-api/internal/slot/repo.go:95-134 | Reserving keeps the invariant: the new reservation is disjoint from every other. |
| `ControlPlane.InsertKeeps` | services/main-api/internal/api/admin_instances.go:240-257 | Inserting the row keeps the invariant: nothing refers to the new instance yet, and its row names the reserved indices. |
| `ControlPlane.BindKeeps` | services/main-api/internal/slot/repo.go:139-151 | Binding keeps the invariant: exactly the request's own reserved rows get the holder. |
| `ControlPlane.ReleaseResKeeps` | services/main-api/internal/slot/repo.go:155-161 | Giving up a reservation keeps the invariant, whether the release commits or leaves orphans. |
| `ControlPlane.ReleaseResSpares` | services/main-api/internal/slot/repo.go:155-161 | Giving up one reservation leaves every other request's reservation whole. |
| `ControlPlane.FreeKeeps` | services/main-api/internal/slot/repo.go:165-167 | Freeing an instance's slots, whoever does it, keeps the invariant. |
| `ControlPlane.TransitionKeeps` | services/main-api/internal/instance/repo.go:99-157 | A transition, whoever does it, keeps the invariant. |
| `ControlPlane.RemoveKeeps` | services/main-api/internal/api/admin_instances.go:417-427 | Removing a terminal row keeps the invariant; the slots it held become stranded. |
| `ControlPlane.CrashKeeps` | services/main-api/internal/slot/repo.go:175-177 | A crash turns live reservations into orphans, recovery frees them, and both keep the invariant. |
| `ControlPlane.SyncedRows` | services/main-api/internal/slot/repo.go:203-252 | After a profile replacement the node's rows are exactly the reported slots and all other rows are untouched. |
| `ControlPlane.SyncedGpus` | services/main-api/internal/slot/repo.go:203-252 | A profile replacement keeps slot indices unique and GPUs disjoint within every node. |
| `ControlPlane.SyncKeepsSlots` | services/main-api/internal/slot/repo.go:203-252 | A profile replacement leaves every reserved or bound row of every node as it is. |
| `ControlPlane.SyncKeepsSagas` | services/main-api/internal/slot/repo.go:203-252 | A profile replacement leaves every live reservation whole. |
| `ControlPlaneRuns.GpuExclusive` | services/main-api/internal/slot/repo.go:95-252 | In every reachable state two different instances bound on one node never share a GPU. |
| `ControlPlaneRuns.HoldersAgree` | services/main-api/internal/slot/repo.go:139-151 | In every reachable state a bound slot is in_use and agrees with its holder's row on node, size and slot index, profile replacement included. |
| `ControlPlaneRuns.OrphansAreLeftBehind` | services/main-api/internal/slot/repo.go:155-177 | The rows no request owns are, in every run, what crashes cut off from live requests and failed releases did not give back, since the last recovery. |
| `ControlPlaneRuns.ReservationLedger` | services/main-api/internal/slot/repo.go:95-177 | In every run the reserved rows are exactly the live reservations, pairwise disjoint, plus what crashes and failed releases have left since the last recovery. |
| `ControlPlaneRuns.LiveIsBindable` | services/main-api/internal/slot/repo.go:139-151 | A request waiting to bind always finds its slots still reserved; its bind can succeed if and only if its instance row still exists. |
| `ControlPlaneRuns.SyncSparesLive` | services/main-api/internal/slot/repo.go:203-252 | A profile sync never deletes or changes a slot that a live reservation or an instance needs. |
| `ControlPlaneRuns.RecoveryIsExact` | services/main-api/internal/db/dbstore/slots.sql.go:167-175 | Boot recovery leaves no reserved row, and every row that was not reserved is unchanged. |
| `ControlPlaneRuns.RequestsAwaitRecovery` | services/main-api/internal/slot/repo.go:169-177 | In every run no request is taken before the boot recovery has run, at the first start and after every crash. |
| `ControlPlaneRuns.InUseAccount` | services/main-api/internal/db/migrations/00001_init.sql:119-121 | "in_use exactly when a holder is set" holds if and only if no slot is stranded. |
| `ControlPlaneRuns.WhatStrands` | services/main-api/internal/db/migrations/00001_init.sql:119-121 | In any step from a reachable state the rows that come to be in_use without a holder are exactly those a deleted instance still held, and no step takes a row out of that state. |
| `ControlPlaneRuns.StrandedIff` | services/main-api/internal/api/admin_instances.go:417-427 | Over whole runs: no slot is stranded if and only if every deleted row held no slot when it was deleted. |
| `ControlPlaneRuns.StrandedForever` | services/main-api/internal/db/dbstore/slots.sql.go:61-63 | A stranded slot stays stranded in every run, restarts included, and blocks every later profile of its node. |
| `ControlPlaneRuns.DeleteCanStrand` | services/main-api/internal/api/admin_instances.go:417-427 | A reachable run that strands: the reaper fails an instance between insert and bind, a delete releases, the bind succeeds, the row goes. |
| `ControlPlaneRuns.PastBindStep` | services/main-api/internal/api/admin_instances.go:259-266 | An instance whose create is past its bind stays past it. |
| `ControlPlaneRuns.HolderOnlyLost` | services/main-api/internal/db/dbstore/slots.sql.go:14-20 | No step but a bind gives an existing row a holder. |
| `ControlPlaneRuns.HoldingsStep` | services/main-api/internal/api/admin_instances.go:259-266 | An instance past its bind gains no slot in any step. |
| `ControlPlaneRuns.HoldingsShrink` | services/main-api/internal/api/admin_instances.go:259-266 | Over whole runs an instance past its bind only loses slots, so after a release none is ever bound to it again. |
| `ControlPlaneRuns.RowsEvolve` | services/main-api/internal/instance/repo.go:99-157 | Over whole runs a row keeps its identity, climbs the rank, stays terminal once terminal, and keeps an address or error message once set. |
| `ControlPlaneRuns.RowWasInserted` | services/main-api/internal/api/admin_instances.go:240-250 | In every run each row belongs to the owner its insert named. |
| `ControlPlaneRuns.RowGoneIff` | services/main-api/internal/api/admin_instances.go:399-427 | Over whole runs a row is gone if and only if a delete of it was carried out, which is possible on a terminal row only; no report removes a row. |
| `ControlPlaneRuns.AuditAlways` | services/main-api/internal/instance/repo.go:99-157 | In every reachable state each audit log replays to its row and records at most four changes. |
| `OpProtocol.Handler.TryAcquire` | services/compute-agent/internal/vm/handler.go:467-488 | The locked region of acquireOp: granted, dropped or preempting, with the map and the slots changed only when granted. |
| `OpProtocol.Handler.Remove` | services/compute-agent/internal/vm/handler.go:495-500 | Removes the map entry if and only if it is the caller's own slot. |
| `OpProtocol.Handler.Release` | services/compute-agent/internal/vm/handler.go:495-502 | release: the map entry goes only if it is the caller's own slot, and only then is done closed, so the closed slot is out of the map and the handler's invariant holds. |
| `OpProtocol.StepKeeps` | services/compute-agent/internal/vm/handler.go:141-502 | Every step of every goroutine keeps the protocol's invariant. |
| `OpProtocol.GrantKeeps` | services/compute-agent/internal/vm/handler.go:471-477 | Granting a slot keeps the invariant: the new slot is the caller's first and the map's entry. |
| `OpProtocol.CancelKeeps` | services/compute-agent/internal/vm/handler.go:489 | Cancelling reaches only a create's slot of the same instance and keeps the invariant. |
| `OpProtocol.ReleaseKeeps` | services/compute-agent/internal/vm/handler.go:495-500 | Removing the map entry before closing done keeps the invariant. |
| `OpProtocol.CloseKeeps` | services/compute-agent/internal/vm/handler.go:501 | close(done) is only ever reached by the slot's maker, once. |
| `OpProtocolRuns.OneHolder` | services/compute-agent/internal/vm/handler.go:467-493 | Two threads that both hold an instance are the same thread. |
| `OpProtocolRuns.MutexSafety` | services/compute-agent/internal/vm/handler.go:467-502 | In every reachable state: one holder per instance, only creates are cancelled, a closed slot is out of the map, and done is never closed twice. |
| `OpProtocolRuns.WhyDropped` | services/compute-agent/internal/vm/handler.go:478-484 | A request is dropped only because another thread holds the instance, and a destroy only because another destroy does. |
| `OpProtocolRuns.TurnsAreAwaited` | services/compute-agent/internal/vm/handler.go:485-491 | Each turn of acquireOp's loop waits for a slot not waited for before: the number of turns is the number of slots awaited. |
| `OpProtocolRuns.LoopBound` | services/compute-agent/internal/vm/handler.go:485-491 | In every run a destroy goes round acquireOp's loop at most once for each create issued for its instance. |
| `OpProtocolRuns.LogKept` | services/compute-agent/internal/vm/handler.go:279-358 | Only RUNNING can fall between a destroy's STOPPING and its STOPPED in the stream of reports. |
| `OpProtocolReports.OneReport` | services/compute-agent/internal/vm/handler.go:164-177 | Only a thread's own step puts a report into the stream, one at a time, about its own instance, and none once its session is broken; the second RUNNING is sent only with an address. |
| `OpProtocolReports.RunSession` | services/compute-agent/internal/vm/handler.go:141-177 | A thread's session is the current one if and only if no session has broken and the process has not restarted since the thread arrived. |
| `OpProtocolReports.ReportsOf` | services/compute-agent/internal/vm/handler.go:141-358 | Over whole runs: a create says PROVISIONING and then RUNNING once or twice, or FAILED if its work failed; a destroy says STOPPING and then STOPPED, or FAILED if its work failed. FAILED is never said by a thread whose work did not fail, nor RUNNING or STOPPED by one whose work did. A thread that has ended, its session unbroken since it arrived, has told all of it. |
| `OpProtocolReports.RunningMeansReleased` | services/compute-agent/internal/vm/handler.go:224-234 | RUNNING is said only by a create whose work did not fail and whose slot is closed and out of the map. |
| `OpProtocolRuns.BracketAppend` | services/compute-agent/internal/vm/handler.go:279-358 | Which next report keeps the stream well bracketed. |
| `OpProtocolRuns.StepDrops` | services/compute-agent/internal/vm/handler.go:467-502 | Every step of an existing thread lowers a measure. |
| `OpProtocolRuns.RunsAreBounded` | services/compute-agent/internal/vm/handler.go:467-502 | Under every scheduler, once no request arrives only a bounded number of steps remains. |
| `OpProtocolRuns.HolderMoves` | services/compute-agent/internal/vm/handler.go:495-502 | A thread that holds a slot is never blocked. |
| `OpProtocolRuns.NoDeadlock` | services/compute-agent/internal/vm/handler.go:467-502 | While a thread has not ended some thread can move; with the bound, every create and destroy ends. |
| `Composed.StoppedLandsIff` | services/main-api/internal/grpc/agent_stream.go:229-268 | Handling one STOPPED report leaves the row terminal if and only if the row was not provisioning or running just before. |
| `Composed.RejectedStillReleases` | services/main-api/internal/grpc/agent_stream.go:254-266 | In any state in which STOPPED finds the row running, it is rejected and still releases: a running row that holds nothing. |
| `Composed.RunningWithoutSlots` | services/main-api/internal/grpc/agent_stream.go:240-266 | Such a state is reached by a run from boot: STOPPING is lost to an error, STOPPED finds the row running, and a running row without slots remains. |
| `Composed.QuietKept` | services/main-api/internal/grpc/agent_stream.go:229-268 | While the last mark handled for an instance is STOPPING, no step of agent or main-api makes its row provisioning or running. |
| `Composed.StoppedLands` | services/main-api/internal/grpc/agent_stream.go:229-268 | With in-order delivery and no error in handling the instance's reports, the row is terminal once STOPPED has been handled, whatever interleaved. |
| `Composed.StoppedIsFinal` | services/main-api/internal/grpc/agent_stream.go:229-268 | From then on, in every run, the row is gone or terminal. |
| `Composed.ReleasedIsFinal` | services/main-api/internal/grpc/agent_stream.go:260-266 | Once the release that follows has gone through, an instance whose create was past its bind never holds a slot again. |
| `Composed.DeliverIsHeard` | services/main-api/internal/grpc/agent_stream.go:229-268 | The word the agent says and the state the handler reads off the wire are the same, and delivering it does to the row what ApplyInstanceStatus does. |
| `Composed.FailedLands` | services/main-api/internal/grpc/agent_stream.go:229-268 | A handled FAILED always lands: the row is failed, with the reported error, unless it was stopped already; and the slots are released next. |
| `Composed.RunningWasAnnounced` | services/compute-agent/internal/vm/handler.go:224-234 | End to end: in no run is a row of the node running unless a create of that instance, past its work and its release, has said RUNNING. |
| `MuxRegistry.Sessions.Insert` | services/ssh-proxy/internal/muxregistry/registry.go:113-131 | Register's locked region: after Close it is refused and the map stays as it was, else the node's entry is replaced and the previous one returned. |
| `MuxRegistry.Sessions.Take` | services/ssh-proxy/internal/muxregistry/registry.go:183-190 | Deregister's locked region. |
| `MuxRegistry.Sessions.TakeIf` | services/ssh-proxy/internal/muxregistry/registry.go:256-261 | handleDeath's locked region: removes the entry only if it is still the node's current one. |
| `MuxRegistry.Sessions.TakeAll` | services/ssh-proxy/internal/muxregistry/registry.go:197-207 | Close's locked region: marks the registry closed and empties the map, returning every entry once. |
| `MuxRegistry.StepKeeps` | services/ssh-proxy/internal/muxregistry/registry.go:113-264 | Every step of every Register, Deregister, Close and watcher keeps the registry's invariant. |
| `MuxRegistry.AdmitKeeps` | services/ssh-proxy/internal/muxregistry/registry.go:113-131 | Register's locked region keeps the invariant: the entry it replaces becomes its own to close. |
| `MuxRegistry.ShutKeeps` | services/ssh-proxy/internal/muxregistry/registry.go:197-207 | Close's locked region keeps the invariant: it owes a close to exactly the entries it took. |
| `MuxRegistry.DeregisterKeeps` | services/ssh-proxy/internal/muxregistry/registry.go:183-190 | Deregister's locked region keeps the invariant. |
| `MuxRegistry.WatcherKeeps` | services/ssh-proxy/internal/muxregistry/registry.go:219-264 | Every step of a watcher keeps the invariant. |
| `MuxRegistryRuns.EverySessionAccounted` | services/ssh-proxy/internal/muxregistry/registry.go:113-264 | In every reachable state an admitted session is its node's current entry, or closed, or owed a close by exactly the thread that removed it. |
| `MuxRegistryRuns.RemovedOnce` | services/ssh-proxy/internal/muxregistry/registry.go:183-214 | An entry is taken out of the map once, by one thread, for good. |
| `MuxRegistryRuns.TakenIsCancelled` | services/ssh-proxy/internal/muxregistry/registry.go:133-214 | Once the call that took an entry out of the map has returned, the entry's context is cancelled and its session closed. |
| `MuxRegistryRuns.DeathSparesSuccessors` | services/ssh-proxy/internal/muxregistry/registry.go:256-264 | The death of a superseded entry never removes its successor. |
| `MuxRegistryRuns.NoGhosts` | services/ssh-proxy/internal/muxregistry/registry.go:113-214 | When all calls have returned and all dying watchers have finished, an open session is its node's current entry, and after Close none is open. |
| `MuxRegistryRuns.WaitsGoBack` | services/ssh-proxy/internal/muxregistry/registry.go:133-146 | A Register waits only for an entry inserted strictly before its own. |
| `MuxRegistryRuns.Unblock` | services/ssh-proxy/internal/muxregistry/registry.go:133-146 | By induction on insertion order: whatever blocks a waiting call can itself move. |
| `MuxRegistryRuns.NoDeadlock` | services/ssh-proxy/internal/muxregistry/registry.go:113-214 | While some call has not returned, its helper (the call itself, or whoever it waits for in the end) can take a step. |
| `MuxRegistryRuns.StepDrops` | services/ssh-proxy/internal/muxregistry/registry.go:113-264 | Every step but a new call lowers a measure. |
| `MuxRegistryRuns.RunsAreBounded` | services/ssh-proxy/internal/muxregistry/registry.go:113-264 | Under every scheduler, without new calls only a bounded number of steps remains; with NoDeadlock every Register, Deregister and Close returns. |
| `MuxRegistryProgress.StepNears` | services/ssh-proxy/internal/muxregistry/registry.go:113-264 | No step of any thread, new calls included, takes a call that has been in its locked region further from its return, and every step of its helper takes it nearer. |
| `MuxRegistryProgress.RoundNears` | services/ssh-proxy/internal/muxregistry/registry.go:133-146 | So it gets nearer in every stretch of a run in which each thread that can move throughout does move. |
| `MuxRegistryProgress.CallReturns` | services/ssh-proxy/internal/muxregistry/registry.go:113-214 | Under every such fair schedule each Register, Deregister and Close returns, within as many rounds as it had steps left, however many new calls keep arriving. |
| `MuxRegistryProgress.RoundEnters` | services/ssh-proxy/internal/muxregistry/registry.go:113-131 | A call that waits for the lock gets it within one round. |
| `MuxRegistryProgress.RegisterBound` | services/ssh-proxy/internal/muxregistry/registry.go:133-146 | A Register that inserted the e-th entry has at most 9 e + 4 rounds to go: the bound depends on earlier entries only. |
| `RateLimiter.RecentOfRecent` | services/main-api/internal/auth/ratelimit.go:45-51 | Filtering by an old cutoff and then by a later one is filtering by the later one: compaction loses nothing a later call needs. |
| `RateLimiter.RateLimiter.Compact` | services/main-api/internal/auth/ratelimit.go:46-51 | The in-place filter leaves exactly the hits after the cutoff at the front of the same backing array, in order. |
| `RateLimiter.RateLimiter.Append` | services/main-api/internal/auth/ratelimit.go:54 | append keeps the slice and adds the hit, in place while there is room, else in a larger array. |
| `RateLimiter.RateLimiter.Refresh` | services/main-api/internal/auth/ratelimit.go:45-55 | The touched key's new hits and the answer. |
| `RateLimiter.RateLimiter.TouchKey` | services/main-api/internal/auth/ratelimit.go:38-61 | Only the touched key's hits change; a key with none left is removed. |
| `RateLimiter.RateLimiter.Stale` | services/main-api/internal/auth/ratelimit.go:77-84 | True if and only if no kept hit is after the cutoff. |
| `RateLimiter.RateLimiter.Sweep` | services/main-api/internal/auth/ratelimit.go:75-89 | Removes exactly the keys none of whose hits is after the cutoff. |
| `RateLimiter.RateLimiter.Allow` | services/main-api/internal/auth/ratelimit.go:38-71 | One call changes kept hits, sweep time and answer as the specification function says. |
| `RateLimiter.AllowKeeps` | services/main-api/internal/auth/ratelimit.go:38-89 | One call keeps the kept hits in agreement with the full history, sweep or no sweep. |
| `RateLimiter.RunsAgree` | services/main-api/internal/auth/ratelimit.go:38-89 | After any run of calls on a clock that does not go back, the next call for any key is answered as a limiter with full history answers it. |
| `RateLimiter.HistoryIsAllowed` | services/main-api/internal/auth/ratelimit.go:38-61 | The full history is that of the calls the implementation allowed, in every window. |
| `RateLimiter.HistoryIsSpaced` | services/main-api/internal/auth/ratelimit.go:38-56 | In any run, allowed hits of a key that are `limit` places apart are at least a window apart. |
| `RateLimiter.WindowBound` | services/main-api/internal/auth/ratelimit.go:36-56 | Hits so spaced never put more than `limit` into a window, wherever it starts. |
| `RateLimiter.AnswerIff` | services/main-api/internal/auth/ratelimit.go:38-56 | In any run on a clock that does not go back, a call is allowed if and only if fewer than `limit` calls for its key were allowed in the window that ends with it. |
| `RateLimiter.RunsAreLimited` | services/main-api/internal/auth/ratelimit.go:36-56 | In any run no window of length W holds more than `limit` allowed calls for a key. |
| `RateLimiter.RunsStaySmall` | services/main-api/internal/auth/ratelimit.go:63-71 | After any run every kept key has between one and `limit` hits, one of them less than two windows older than the last call. |
| `CreditLedger.PostedKeeps` | services/main-api/internal/credit/repo.go:64-87 | Posting under an unused key keeps every balance equal to its ledger sum, rows only for users with entries, and keys distinct. |
| `CreditLedger.RunsBalance` | services/main-api/internal/credit/repo.go:55-102 | Conservation: after any run of posts, failing ones included, every cached balance is the sum of the user's ledger. |
| `CreditLedger.FirstWins` | services/main-api/internal/credit/repo.go:52-54 | A key belongs to whoever posts it first: the ledger holds that call's entry and no other under it. |
| `CreditLedger.RetryChangesNothing` | services/main-api/internal/credit/repo.go:52-54 | Repeating a call that had the chance to commit changes nothing, however much later. |
| `CreditLedger.CreditRepo.Post` | services/main-api/internal/credit/repo.go:55-89 | Commits entry and balance together if and only if the key is non-empty and unused, the user exists and the database answers; otherwise nothing changes and the error says which. |
| `CreditLedger.CreditRepo.Taken` | services/main-api/internal/db/migrations/00001_init.sql:149 | The unique index's look-up. |
| `CreditLedger.CreditRepo.Balance` | services/main-api/internal/credit/repo.go:93-102 | Returns the sum of the user's ledger, zero for a user without a row. |
| `CreditLedger.CreditRepo.Bankrupt` | services/main-api/internal/db/dbstore/credits.sql.go:149-151 | Returns exactly the users the ledger knows whose deltas sum to zero or less. |
| `BillingKey.UuidTextInjective` | services/main-api/internal/billing/worker.go:107 | Different instance ids print differently. |
| `BillingKey.DecimalInjective` | services/main-api/internal/billing/worker.go:107 | Different minute numbers print differently, negative ones included. |
| `BillingKey.BillKeyInjective` | services/main-api/internal/billing/worker.go:107 | Two printed keys are equal if and only if instance and minute are. |
| `BillingKey.UuidTextReads` | services/main-api/internal/billing/worker.go:107 | A printed id is groups of 8, 4, 4, 4 and 12 lower-case digits that read back as the id. |
| `BillingKey.DecimalNatReads` | services/main-api/internal/billing/worker.go:107 | A printed number reads back as itself and has no leading zero. |
| `Billing.PrintedIsInjective` | services/main-api/internal/billing/worker.go:107 | The worker's way of naming charges is injective. |
| `Billing.WonIff` | services/main-api/internal/billing/worker.go:90-119 | A minute is charged exactly when a worker, and not a recharge, posted its key first. |
| `Billing.StepTakes` | services/main-api/internal/billing/worker.go:99-118 | One post takes the rate for the instance if it is the first under its key, else nothing. |
| `Billing.ChargedOnce` | services/main-api/internal/billing/worker.go:90-119 | However ticks overlap, repeat and restart, the ledger has taken rate times the number of distinct minutes the worker was first to post. |
| `Billing.UnshadowedWins` | services/main-api/internal/billing/worker.go:90-119 | If no recharge uses a key of the instance, those are all the minutes in which it was seen. |
| `Billing.RechargeCanShadow` | services/main-api/internal/api/admin_credits.go:91-102 | A recharge under a minute's key keeps that minute from being charged. |
| `Billing.BucketIs` | services/main-api/internal/billing/worker.go:98 | The minute of a time since 1970 is the one it falls in; for an earlier time the division truncates toward zero. |
| `Billing.SharesKeyIff` | services/main-api/internal/billing/worker.go:98-107 | Two charges of one instance share a key if and only if their times fall in the same [60k, 60k + 60). |
| `Billing.NoGaps` | services/main-api/internal/billing/worker.go:98 | Ticks at most sixty seconds apart hit every minute from the first to the last, both included, and no other; from 1970 on those are a / 60 to b / 60. |
| `Billing.ChargedEveryMinute` | services/main-api/internal/billing/worker.go:93-120 | An instance billed from tick a >= 0 to tick b, ticks at most a minute apart, has paid exactly the listed price of its GPU count times (b / 60 - a / 60 + 1). |
| `Billing.WorkerChargesEveryMinute` | services/main-api/internal/billing/worker.go:93-120 | The same for the keys the worker prints. |
| `Billing.OwnerPays` | services/main-api/internal/billing/worker.go:108-114 | What is taken for an instance is taken from its owner: every entry for it is the owner's, and the owner's balance is that sum plus entries that have nothing to do with the instance. |
| `BillingWorker.TickIsRun` | services/main-api/internal/billing/worker.go:93-120 | A tick is a stretch of a run, so what holds of runs holds of ticks. |
| `BillingWorker.Worker.ChargeRow` | services/main-api/internal/billing/worker.go:99-118 | A row without owner or price leaves the books alone; else at most one entry is added: the owner's, of minus the listed price, for the instance, under the key billing:<id>:<minute> of the minute the tick falls in. |
| `BillingWorker.Worker.Charge` | services/main-api/internal/billing/worker.go:93-120 | The books after a tick are the fold of the rows' posts; a failed post does not stop the loop; balances stay equal to ledger sums. |
| `BillingWorker.Worker.SweepUser` | services/main-api/internal/billing/worker.go:140-156 | Exactly one destroy for each of the user's instances that is running or provisioning, addressed to that instance's node, and no other. |
| `BillingWorker.Worker.SweepBankrupt` | services/main-api/internal/billing/worker.go:126-159 | User by user: exactly one destroy for each instance that was running or provisioning when that user's instances were listed; the users are those out of credit whose listing worked, each once. |
| `BillingWorker.EachOnce` | services/main-api/internal/billing/worker.go:136-158 | When the instances do not change during the sweep, every live instance of a swept user is sent exactly one destroy and no other instance any. |
| `BillingWorker.Worker.RunOnce` | services/main-api/internal/billing/worker.go:80-88 | Charges first, so users the tick leaves with nothing are swept in the same tick, each from a listing made then; a failed listing of the billable rows sweeps nobody. |
| `AuthCache.Handler.Matches` | services/main-api/internal/agentauth/agentauth.go:202-208 | True if and only if some active hash accepts the token. |
| `AuthCache.Handler.Lookup` | services/main-api/internal/agentauth/agentauth.go:184-227 | A hit answers from the cache and changes nothing; a miss answers as the two queries do and only a success is stored, until ttl after the moment of storing. |
| `AuthCache.HttpVerifier.Verify` | services/ssh-proxy/internal/muxserver/auth.go:133-195 | The same for the proxy: 401 and broken replies are distinguished and never stored. |
| `AuthCache.StepKeeps` | services/main-api/internal/agentauth/agentauth.go:184-227 | Every step of any number of concurrent requests, revocations, view changes and clock ticks keeps the invariant of both caches. |
| `AuthCacheRuns.FactsAreTrue` | services/main-api/internal/agentauth/agentauth.go:196-218 | Whatever a request has read was so at an earlier instant of the run. |
| `AuthCacheRuns.AcceptedWasActive` | services/ssh-proxy/internal/muxserver/auth.go:133-195 | A token accepted at time t is not empty and was active at an instant no further back than the time the two requests spent in flight plus, for each cache that is on, its ttl less one tick; the view handed out was the node's at an instant in between. |
| `AuthCacheRuns.AcceptedIsActive` | services/ssh-proxy/internal/muxserver/auth.go:68-73 | With both caches off and nothing in flight, the token is active when accepted. |
| `AuthCacheRuns.RefusedForCause` | services/main-api/internal/agentauth/agentauth.go:196-218 | Failures are never cached: a refusal has its cause since the request began (inactive token, missing node, empty token) or is a fault. |
| `AuthCacheRuns.ActiveIsRefusedOnlyByFault` | services/main-api/internal/agentauth/agentauth.go:196-218 | A token active ever since its request began is refused only because a query or the call failed. |
| `AuthCacheRuns.StalestRun` | services/main-api/internal/agentauth/agentauth.go:213-226 | For every pair of ttls and lags a run from boot attains that bound: the token is active at time zero only and is accepted that many ticks later. |
| `AuthCacheRuns.TtlsSufficeIff` | services/ssh-proxy/internal/muxserver/auth.go:68-73 | The ttls alone bound staleness in every run if and only if requests spend no time in flight, or at most one tick of it with both caches on. |
| `Hostdev.JoinSplit` | services/compute-agent/internal/libvirt/xml.go:248-252 | Joining what was split gives back the string. |
| `Hostdev.SplitFirst` | services/compute-agent/internal/libvirt/xml.go:248-252 | A piece without separators, followed by one, is the first part. |
| `Hostdev.HexDigits` | services/compute-agent/internal/libvirt/xml.go:257-261 | The digits are those of both cases, each worth its place in 0..9a..f. |
| `Hostdev.Hex32Iff` | services/compute-agent/internal/libvirt/xml.go:257-261 | A number fits if and only if all but its last eight digits are zero. |
| `Hostdev.ParseUint32` | services/compute-agent/internal/libvirt/xml.go:257-261 | Accepts exactly the non-empty hexadecimal strings whose value is below 2^32, and returns the value. |
| `Hostdev.AcceptsIff` | services/compute-agent/internal/libvirt/xml.go:247-261 | The builder accepts exactly the strings d:b:s.f of four such components, and those are the components it uses. |
| `Hostdev.BuildHostdev` | services/compute-agent/internal/libvirt/xml.go:247-276 | The first malformed part decides the error; otherwise the element of the accepted address. |
| `Hostdev.BuiltCarries` | services/compute-agent/internal/libvirt/xml.go:262-276 | That element is a managed vfio pci subsystem device; each attribute of its address begins with 0x, and what follows are the parts of the address given. |
| `Hostdev.BuildHostdevs` | services/compute-agent/internal/libvirt/xml.go:83-89 | Builds every address in order, or stops at the first error. |
| `Hostdev.ParsePassthroughPci` | services/compute-agent/internal/libvirt/xml.go:226-235 | Keeps exactly the subsystem/pci elements, in order, without their prefixes; as many as there are. |
| `Hostdev.WidthsIff` | services/compute-agent/internal/libvirt/xml.go:238-243 | What is read has the sysfs widths 4/2/2/1 if and only if each attribute has its width already, the prefix apart: nothing is padded. |
| `Hostdev.BuiltWidthsIff` | services/compute-agent/internal/libvirt/xml.go:238-276 | An address the builder accepts comes back with the sysfs widths if and only if it was given with them. |
| `Hostdev.ShortStaysShort` | services/compute-agent/internal/libvirt/xml.go:238-243 | 0:1:2.3 is accepted and comes back as 0:1:2.3. |
| `ListMaps.MapAllIff` | services/compute-agent/internal/libvirt/xml.go:83-89 | The list builds if and only if each of its addresses does. |
| `ListMaps.SomeOfAll` | services/compute-agent/internal/libvirt/xml.go:203-205 | If parsing one element undoes building it, parsing the list undoes building the list. |
| `ListMaps.AllOfSome` | services/compute-agent/internal/libvirt/xml.go:203-205 | And the other way round. |
| `Hostdev.ParseUndoesBuild` | services/compute-agent/internal/libvirt/xml.go:240-243 | For every address the builder accepts, trimming the prefixes of its element gives the address back. |
| `Hostdev.ParseBuilt` | services/compute-agent/internal/libvirt/xml.go:203-276 | Parsing what was built gives back the same addresses in the same order. |
| `Hostdev.BuildParsed` | services/compute-agent/internal/libvirt/xml.go:203-276 | Building what was parsed from elements the builder writes gives back the same elements. |

## Left out

- Composed: models one agent with main-api; other nodes' agents appear as arbitrary reports about their own rows.
- Node registration, heartbeats and node status: the reaper is modelled from the list of instances it reads.
- The slot status `draining`: no code writes it.
- Instance columns other than node, owner, GPU count, slot indices, state, address and error: no modelled property reads them.
- Ledger metadata and the paged history listing: carried through unread.
- RateLimiter.RateLimiter.Allow: the zero time of a new limiter is modelled as "never swept", which is what the saturating subtraction amounts to.
- AuthCache.HttpVerifier.Verify: the HTTP exchange is its outcome (200 with ok, 401 or 200 without ok, anything else); the several spellings of one UUID, which the outer cache keeps apart, are one key.
- AuthCache.Handler.Matches: bcrypt is an arbitrary predicate on hash and token.
- Hostdev.ParsePassthroughPci: works on the elements' attributes; XML text and the other elements of a domain are not modelled.
- Profile.Resolve: YAML loading and the profile hash are not modelled; a layout is its list of slots.
- OpProtocol.StepKeeps: what qemu-img, libvirt and the disk do between two steps is an arbitrary outcome; the model does not say that a machine is gone when its slot is free, because a failed destroy also reports a terminal state.
- MuxRegistry.StepKeeps: opening streams and the health probe itself are not modelled; a probe may fail at any time.
- The dispatcher's registry of connected agents: sending to an agent is an arbitrary success or failure.
- Sessions, login, e-mail and password rules, teams and access policy: independent of the modelled state.
- HTTP, gRPC, TLS, SSH and yamux framing, configuration, metrics and the web frontend: input and output only.
