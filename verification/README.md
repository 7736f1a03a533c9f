# A verified model of ctdb's cluster logic

ctdb keeps one key/value database consistent across the nodes of a cluster. This
project models the parts of it whose correctness cannot be read off one function,
and proves what they promise. `dafny verify dfyconfig.toml` checks everything.

**Record migration and read-only delegation.** `Ltdb` has the rule by which a
local record is fetched, stored or deleted instead of stored. `Protocol` has the
effect of each handler on one node: the new record, tracking set and revoke, the
packets sent and the events logged. `Cluster` puts n nodes, a bag of packets and
a generation together into a step relation; every handler run under the
chainlock is one step. `ClusterInv` states the invariant: where ownership is (on
a node, in a `REQ_DMASTER`, in a `REPLY_DMASTER`), what each node's record may be
and what each packet may say. `Moves`, `RevokeMoves`, `Steps`, `Handlers` and
`StepInv` show that every step keeps it; `Theorems` and `Guarantees` read the
promises off it for whole runs. `Calls` follows the calls themselves: none is lost,
each is answered to its caller, and what is answered is what the history says.
`Outcomes` has the cases that do not go through: a refused role, a copy that is not
installed, a spoiled revoke.
`Daemon` and `Tracking` hold the same handlers in the source's imperative form, proved
equal to the functions of `Protocol`.

With read-only tracking some of the promises are false of the code as it stands, and
`Steps` and `Hazards` say when. Three kinds of steps can go wrong, and each is told by
the packet, the action and the records it meets, before the step.

A *name hazard* puts ownership at risk:

* the owner delegates to itself;
* an empty record that never carried data comes home to the location master for a
  vacuum migration whose call fails, and vanishes there while a delegation reply that
  can outlive it is on the wire: one to the location master, or one above sequence
  number 2, which is where an owner that is given the role starts over;
* an `UPDATE_RECORD` from before a recovery is stored and renames the owner or the
  location master's entry, or lets a delegation through that does so.

An *order hazard* puts the order of the sequence numbers at risk:

* the record vanishes on the location master, as above, while another copy of it is
  stored or on its way;
* an `UPDATE_RECORD` from before a recovery is stored and is not older than the record.

A *copy hazard* puts the agreement of read-only copies at risk:

* a client stores other data over a delegated record;
* a node loses its record, or is pushed one it does not have, while a delegation reply
  that the loss makes acceptable is still on the wire;
* an `UPDATE_RECORD` from before a recovery is stored and lets such a reply through,
  or leaves a copy whose sequence number does not fit the delegated record.

Runs without a name hazard keep the single owner, the routing, the tracking and the
register of calls and stores (`Theorems`, `Guarantees`, `History`); without an order
hazard as well, every copy is older than the record (`Order`); without any hazard every
read-only copy is coherent. Conversely, from any good state a name hazard leaves the
cluster at most five steps from a state with no owner, a misnamed one or an open revoke
(`NameHazardBreaks`); an order hazard leaves a copy that is not older than the record,
at once or with the next delegation (`OrderHazardBreaks`); a copy hazard changes the
value under delegation or leaves the cluster at most one step from a stray copy
(`CopyHazardBreaks`). `Stories` and `ResetStory` have runs of three nodes from the
initial state: to a store over a delegated record, a push that is skipped, a reset, a
late push and a self-delegation, the last two with a state behind them in which nobody
owns the record, and to a reset after which an old copy is the newest one. Without
read-only tracking there are no hazards of any kind, and all the promises hold in every
run (`PlainDb`).

**Trees.** `RbTree`, `RbRotate`, `RbHeap`, `RbInsert`, `RbDelete`, `RbRemove`,
`RbMap`, `RbHeight` and `RbTraverse` model the red-black tree with parent links
on heap nodes. Every tree carries, as a ghost value, its shape: the fields of all
its nodes and, per node, the interval of keys and the black height. The balance
arguments are lemmas about shapes; the methods change the heap and keep the shape
in step. `NestedTree` models the trees keyed by word arrays as values, and
`NestedWalk` their walk in the order of each level's heap tree. `Stops` says what a
walk sees whose callback has a state and may stop it.

**Streams.** `PacketStream` defines what packets a stream of bytes contains.
`PacketQueue` has the in-queue and out-queue of a socket; `IbSend`, `IbSendInv`
and `IbConn` the InfiniBand sender with its send credit, waiting fragments and
reference counts; `IbReceive` the reassembly. `PacketLink` and `IbLink` join the two
ends of each kind in one run.

**Locks.** `LockQueue` models the pending and active lock contexts of a database,
`LockRuns` their runs, also when lock children die, `LockTwice` which requests are
called twice, `LockFreed` what becomes of a freed one, and `LockScheduler` the
scheduler object.

**Marshalling, vacuum deletes and commits.** `RecordHeader` has the bytes of a record
header; `Marshall`, `VacuumDelete` and `Commit` the rest.

## What is assumed

* One key of one volatile database is followed. Handlers are atomic. Packets are
  not lost within a generation but may be delayed and reordered at will.
* A request id is answered by an open choice (`Pending`): the daemon may or may not
  still know the call, and may or may not remember that it was a vacuum migration.
* A recovery installs one agreed owner and value under a fresh generation, with
  everything on the wire still there: an empty record on no node, any other one marked
  as migrated with data and above the other copies. It ends the revokes that were under
  way: the answers to their pushes find no child any more.
* Words are stored as on a little-endian machine; the source uses the order of its host.
* Only call and dmaster packets are stopped by their generation. `UPDATE_RECORD` and its
  answer are controls and act whenever they arrive. The update is replace-only on
  volatile databases: a node without the record acknowledges and stores nothing.
* `Store` stands for a client that holds the chainlock of a record its node owns, by
  `ctdb_fetch_lock`, which tests the owner and no delegation flag.
* `Resend` may send out any waiting call again, stamped with the current generation.

## Findings

* A late push takes the role away. A revoke is under way, the cluster recovers, another
  node owns the record with the same data, and the old `UPDATE_RECORD` arrives: the new
  owner's header now names the old one, and nobody owns the record
  (`Stories.LatePushIsReachable`; `Hazards.TakenNameBreaks` for every such push).
* A resent read-only call can reach a node that has become the owner. It then delegates to
  itself, its own push takes the revoking mark off, and the role is lost
  (`Stories.SelfGrantLosesRole`).
* `ctdb_fetch_lock` lets a client store over a delegated record. The copies agree
  afterwards if and only if the data is the same or no copy is out
  (`Hazards.StoreAgreesExactly`).
* A queue whose head packet is half written when it gets a new descriptor, as when a node
  is declared dead and reconnected, sends the end of that packet as the beginning of the
  new stream; `PacketQueue.OutQueue.SetFd` has the exact condition.
* A lock context without auto-mark outlives its callbacks. When its child dies, all its
  requests are called again, which the freezing of databases relies on. A request shares
  the mark of the context it joins, so one that asks for auto-mark can be called twice
  too (`LockTwice.TwiceExactly`, `LockTwice.MarkIsShared`).
* Vacuum fetch: the delete in `ctdb_become_dmaster` is undone by the store in
  `ctdb_call_local` whenever the waiting call runs; it lasts only when the call fails,
  and then the sequence number starts again from zero (`Hazards.ResetGoesBack`,
  `Stories.ResetIsReachable`). In a database with read-only tracking a copy that a
  revoke left on another node can then be newer than the next write
  (`Hazards.ResetBreaksNewest`, `ResetStory.NewestGoesStale`). Without tracking it
  cannot: a record that never carried data has no copy but on the location master and
  its owner (`PlainDb.LonelyStep`), and the newest copy stays the current one
  (`PlainDb.NewestIsCurrent`).
* `delete_tdb_record` reports success for a corrupt record even when it could not lock
  or delete it; `VacuumDelete.SuccessMeansGone` has the exact condition.
* Word-array keys must not be prefixes of one another: `NestedTree.PrefixMixes` shows
  that any prefix pair makes a lookup take a payload for a subtree, and `NeverMixed`
  that nothing else does. Keys that start with their own length are safe
  (`EncodedKeys`). Record keys that differ only in zero bytes at the end of their last
  word get the same tree key (`EncodeAlike`).

## Model

| member | source | states |
|---|---|---|
| `Ltdb.FetchAfterStore` | server/ctdb_ltdb_server.c:42-240 | a fetch after a store, also when the record was deleted instead, gives the stored data back and the same answer to whether this node is the owner; only empty records that never carried data and bear no read-only flag are deleted |
| `Ltdb.StoredExactly` | server/ctdb_ltdb_server.c:42-240 | a store leaves nothing exactly for an empty record without a lasting flag, on a node that is neither location master nor owner, or on one that is both and got it by a vacuum migration; otherwise it leaves the data and the flags but the temporary ones, one sequence number higher exactly if the owner stores it without read-only flags |
| `Ltdb.FetchedExactly` | common/ctdb_ltdb.c:61-121 | a fetch stores something exactly for a missing record on its location master, which then owns an empty one; elsewhere the header names the location master |
| `Ltdb.FetchIdempotent` | common/ctdb_ltdb.c:61-121 | the record that a fetch creates for an absent key changes neither its data nor its owner, and fetching again changes nothing |
| `Theorems.SingleOwner` | server/ctdb_call.c:153-262 | in every state of a run without name hazards, the nodes that take themselves for owner and the ownership packets in flight number exactly one together, no packet twice, and the location master names the owner, the sender of the request or the receiver of the reply |
| `Theorems.NeverFaults` | server/ctdb_call.c:423-514 | without name hazards the branch for a `REQ_DMASTER` from a node that is not the owner is never taken, and a revoke that got all its answers never finds its record changed |
| `Theorems.ReadOnlyCoherent` | server/ctdb_call.c:794-914 | without hazards a stored copy with the read-only flag has the data of an owner that tracks its node, which is the current value |
| `Theorems.TrackingExact` | common/ctdb_ltdb.c:256-297 | without name hazards the owner's tracking set is exactly the set of nodes delegated to since it was last cleared, and other nodes track nobody |
| `Theorems.OwnerStaysDelegated` | server/ctdb_call.c:794-872 | without name hazards no step changes the owner while delegations are out, and only the end of a revoke that every delegate has answered closes them, one sequence number higher |
| `Theorems.NoChangeUnderDelegation` | server/ctdb_call.c:794-872 | without hazards no step changes the value while delegations are out |
| `Theorems.LateDelegation` | server/ctdb_call.c:1016-1072 | without hazards a delegation reply that would still be installed carries the current value, its node is tracked, and if a revoke has begun its update to that node is still to arrive; a reply delayed past its revoke is therefore ignored |
| `Guarantees.RsnNeverDecreases` | server/ctdb_call.c:863-900 | without name hazards the sequence number of the record, on its owner or in flight, never decreases until the next recovery or until the record vanishes on the location master |
| `Order.RsnOrder` | server/ctdb_call.c:1574-1612 | in every run without name and order hazards, also one in which the record starts over where no copy is left, every other stored copy is strictly below the owner, and none is above the record in flight |
| `Order.StepKeepsOrder` | server/ctdb_call.c:722-1131 | every step that is no order hazard, a recovery and a reset included, keeps all other copies, stored or on their way, older than the record |
| `Guarantees.DelegationOrder` | server/ctdb_call.c:1574-1612 | without hazards, under delegation at M, read-only copies are at M-2 and all others below them, but for the revoked copies, which are the pushed record at M-1 with no push on its way |
| `Guarantees.DelegationIsNewer` | server/ctdb_call.c:863-900 | without hazards a fresh delegation is above whatever stale record its node held |
| `Guarantees.RevokeNeverRefused` | server/ctdb_update_record.c:39-119 | without hazards an update of a revoke in the current generation is always answered with success, to the owner |
| `Guarantees.AtomicRegister` | server/ctdb_call.c:213-413 | without name hazards the log of calls and stores is the history of one atomic register, and the owner's data or the data in flight is that register's value |
| `Guarantees.ReadsAreCurrent` | server/ctdb_call.c:863-914 | without hazards the reads of read-only copies belong to the same history: each returns the register's value at that moment |
| `History.OnlyCallsAndStores` | client/ctdb_client.c:71-135 | in every run, a write is logged only by a client's store, with its data; a call only by the client call, the call returned to its own node, or the arrival of the role with a call waiting for it; a read, a delegation, a clearing and a vacuum delete only by theirs; and every other step leaves the register's value alone |
| `History.WritersOwn` | client/ctdb_client.c:71-135 | without name hazards the node whose step logs a call or a store owned the record, or takes the role with that step, and afterwards owns it and stores the register's value |
| `Calls.CallMoves` | server/ctdb_call.c:722-990 | a delivered call stays exactly when the record is being revoked or a revoke starts; otherwise exactly one packet takes its place, for the same caller and request id: the same call to the next node, a read-only copy, the reply, or the role |
| `Calls.ClientMoves` | server/ctdb_daemon.c:594-798 | a client's call leaves its node exactly if the local header names another one and no revoke is under way, and goes there as the same call, a read-only one as a fetch with header |
| `Calls.CallsConserved` | server/ctdb_call.c:423-1131 | between recoveries, without name hazards, the packets for a call on the wire are those that were there, plus one for each time it was made, minus one for each answer or role its caller got |
| `Calls.NoCallLost` | server/ctdb_call.c:423-1131 | a call on the wire keeps having a packet for it until its caller is answered or the cluster recovers |
| `Calls.CallsAreRun` | client/ctdb_client.c:71-135 | every step of a run records exactly the call it runs, and none if the call fails: a call of the owner itself with no revoke in the way, or the call that waited for the role |
| `Calls.RepliesAreTrue` | server/ctdb_call.c:960-990 | every reply goes to the caller under its request id, with the reply of the call on the register's current value, recorded by the same step, or empty if the call failed |
| `Outcomes.RoleRefused` | server/ctdb_call.c:423-514 | a dmaster request is refused if and only if it comes to a node that is not the location master or from one that the location master does not have on record; then the owners on record, the data and the history stay and nothing is sent |
| `Outcomes.CopyInstalled` | server/ctdb_call.c:1016-1072 | a read-only copy is installed if and only if its request is still known, it is marked as a copy and it is newer than what the node stores; otherwise the node keeps its record |
| `Outcomes.RevokeEnds` | server/ctdb_call.c:1539-1600 | a revoke is completed if and only if no answer was bad and the record is unchanged, one sequence number higher; otherwise the record stays as it is, and a recovery is asked for if it was changed |
| `Outcomes.AnswerCounts` | server/ctdb_call.c:1487-1509 | an answer counts if and only if it belongs to the running revoke, and a refusal spoils it |
| `Outcomes.DeadlineSpoils` | server/ctdb_call.c:1529-1537 | the deadline spoils the revoke and changes nothing else |
| `Outcomes.SpoiledStays` | server/ctdb_call.c:1487-1600 | without name hazards a spoiled revoke is never completed: until the next recovery the record stays marked as revoking |
| `Guarantees.BoundedRouting` | server/ctdb_call.c:120-144 | without name hazards following the headers from any node reaches the owner at rest after at most two redirects |
| `Guarantees.RedirectStep` | server/ctdb_call.c:826-837 | without name hazards the delivery of a call to a node that does not own the record changes no record and sends the call on to the next hop, counted |
| `Guarantees.GenerationIsolated` | server/ctdb_server.c:294-327 | a call or dmaster packet sent by a step of one generation, however long it was parked, never changes a record or the value when delivered in another, in any run |
| `PlainDb.PlainIsSafe` | server/ctdb_call.c:722-990 | no step of any run of a database without read-only tracking is a hazard of any kind, so that ownership, routing, tracking, the register and the order hold unconditionally |
| `PlainDb.SingleOwnerAlways` | server/ctdb_call.c:321-514 | exactly one owner or ownership packet in every reachable state, and the location master names it |
| `PlainDb.RequestsInOrderAlways` | server/ctdb_call.c:423-514 | no ownership packet of the current generation ever meets the from-non-master branch |
| `PlainDb.RsnOrderAlways` | server/ctdb_call.c:321-413 | in every run, whatever the vacuum deletes or resets, every other stored copy is strictly below the owner, and none is above the record in flight |
| `PlainDb.AtomicRegisterAlways` | server/ctdb_call.c:213-413 | every run refines one atomic register |
| `PlainDb.ValueIsStored` | server/ctdb_call.c:228-262 | in every run without vacuum deletes a non-empty current value is stored on some node, also while ownership is in flight |
| `PlainDb.LonelyStep` | server/ctdb_ltdb_server.c:76-139 | every step keeps this: a record that was never migrated with data is stored on no node but the location master and its owner |
| `PlainDb.NoHazard` | server/ctdb_call.c:321-413 | without read-only tracking no step is a hazard of any kind, not even one that makes the record vanish on the location master |
| `PlainDb.NewestIsCurrent` | server/ctdb_ltdb_server.c:76-139 | in every run without vacuum deletes, resets included, the stored copy with the highest sequence number has the current value, or the value and every stored copy are empty |
| `PlainDb.BoundedRoutingAlways` | server/ctdb_call.c:120-144 | at most two redirects in every reachable state with the owner at rest |
| `Hazards.NamesStayWhole` | server/ctdb_call.c:321-514 | a run without name hazards never has a state with no owner, a misnamed one or a revoke that lost its mark |
| `Hazards.CopiesStayWhole` | server/ctdb_call.c:1016-1072 | a run without hazards never has a read-only copy that no owner answers for, or one out of step with the delegated record |
| `Hazards.LosesCopyExact` | server/ctdb_ltdb_server.c:76-139 | the guard of a lost copy, over action, packet and record, holds if and only if the step leaves its node without a record it had or was pushed |
| `Hazards.NameHazardBreaks` | server/ctdb_call.c:722-990 | from any good state every name hazard leaves the cluster at most five steps from no owner, a misnamed one or a revoke without its mark |
| `Hazards.StartedOverBreaks` | server/ctdb_call.c:1016-1072 | when the record has started over with a delegation reply above sequence number 2 on its way to another node, that node can be given the role and then loses it to the reply: five steps to a state with no owner |
| `Hazards.OrderHazardBreaks` | server/ctdb_update_record.c:39-119 | from any good state every order hazard that is no name hazard leaves a copy that is not older than the record, at once or after one delegation |
| `Hazards.TakenNameBreaks` | server/ctdb_update_record.c:39-119 | a late push that renames the owner leaves nobody with the role; one that renames the location master's entry leaves calls going to a node without it |
| `Hazards.RevivedNameBreaks` | server/ctdb_update_record.c:39-119 | a late push that puts the location master's copy back lets a delegation in that names the wrong node |
| `Hazards.TooNewBreaks` | server/ctdb_update_record.c:39-119 | a late push with too high a sequence number leaves a copy that is not older than the record |
| `Hazards.ResetGoesBack` | server/ctdb_call.c:321-413 | a record that vanishes on the location master restarts at sequence number zero, below the one it had |
| `Hazards.ResetThenDelegation` | server/ctdb_call.c:1016-1072 | after such a reset the next delegation that reaches the location master takes its role away |
| `Hazards.ResetBreaksNewest` | server/ctdb_call.c:321-413 | after such a reset and one write, a copy that another node kept with a sequence number above 2 is above the owner and has other data; only a database with read-only tracking has such copies |
| `Hazards.SelfTrackedBreaks` | server/ctdb_call.c:1539-1600 | an owner that delegated to itself loses the revoking mark to its own update, and calls go on during the revoke |
| `Hazards.CopyHazardBreaks` | server/ctdb_call.c:1016-1072 | from any good state every copy hazard changes the value under delegation or leads within one more step to a broken copy |
| `Hazards.LostCopyBreaks` | server/ctdb_call.c:1047-1066 | a node that loses its record before a pending delegation arrives installs a read-only copy nobody tracks |
| `Hazards.RevivedBreaks` | server/ctdb_update_record.c:39-119 | a late push below a held delegation lets it in as a read-only copy that no owner answers for |
| `Hazards.UnsettledBreaks` | server/ctdb_update_record.c:39-119 | a late push of the wrong sequence number leaves a copy out of step with the delegated record |
| `Hazards.StoreAgreesExactly` | client/ctdb_client.c:643-714 | after a client's store all read-only copies, stored or still to be installed, carry the current value if and only if the data was unchanged or there are none |
| `Hazards.CopiesOutOnlyDelegated` | server/ctdb_call.c:863-914 | read-only copies, stored or still to be installed, exist only while the owner's record says delegated |
| `Hazards.StoredOverBreaks` | client/ctdb_client.c:643-714 | a store of other data over a delegated record changes the value under delegation, and every copy that is out is then stray, at once or when it is installed |
| `Stories.StoreIsReachable` | client/ctdb_client.c:643-714 | a run of three nodes without hazards ends where a store over a delegated record is enabled |
| `Stories.SkipIsReachable` | server/ctdb_update_record.c:39-119 | a run without hazards ends where a push overtakes the delegation it revokes and is acknowledged without being stored |
| `Stories.LatePushIsReachable` | server/ctdb_update_record.c:39-119 | a run without hazards ends where an old push arrives after a recovery, and its delivery leaves nobody with the role |
| `Stories.ResetIsReachable` | server/ctdb_call.c:321-413 | a run without hazards ends where the record vanishes on the location master |
| `Stories.SelfGrantIsReachable` | server/ctdb_call.c:863-914 | a run without hazards ends where a resent call makes the owner delegate to itself |
| `Stories.SelfGrantLosesRole` | server/ctdb_call.c:863-914 | that run goes on to a state in which nobody owns the record |
| `ResetStory.NewestGoesStale` | server/ctdb_call.c:321-413 | a run without hazards on a database with read-only tracking, through a delegation, its revoke and a round of the record, ends where the record vanishes while another node keeps a copy; after one write by the location master that copy has the highest sequence number and not the current value |
| `StepInv.StepKeepsInv` | server/ctdb_call.c:722-1131 | every enabled step that is no name hazard keeps the part of the invariant about ownership, routing, tracking and the register; one that is no hazard at all keeps the whole; and the sequence number of the record falls only where it vanishes on the location master |
| `Theorems.RunKeepsInv` | server/ctdb_daemon.c:1366-1366 | either invariant holds in every state of every run without hazards of its kind, across recoveries and with late pushes |
| `Handlers.MigrateInv` | server/ctdb_call.c:213-262 | giving the role away keeps the invariant, whether the giver is the location master or not and whether its copy is kept or deleted |
| `Handlers.GrantInv` | server/ctdb_call.c:863-914 | a delegation to another node keeps the invariant |
| `Handlers.RecallInv` | server/ctdb_call.c:839-861 | the start of a revoke keeps the invariant |
| `Handlers.RequestCallInv` | server/ctdb_call.c:722-990 | the whole handler of a call from another node keeps the invariant |
| `Handlers.ClientCallInv` | server/ctdb_daemon.c:594-798 | the whole handler of a client call keeps the invariant, and is never a hazard |
| `StepInv.RequestDmasterInv` | server/ctdb_call.c:423-514 | the step of the location master keeps the invariant, also when the record vanishes there, and never faults |
| `StepInv.ResetInv` | server/ctdb_call.c:321-413 | the record's vanishing on the location master keeps ownership, routing and the register while no delegation reply can outlive it, and keeps the whole invariant while no other copy is stored or on its way |
| `StepInv.ReplyDmasterInv` | server/ctdb_call.c:1095-1131 | the arrival of the role keeps the invariant |
| `StepInv.BecomeThenCall` | server/ctdb_call.c:321-413 | becoming owner and running the waiting call is the same as storing the record, never deleting it, and running the call: the store of the call undoes a delete |
| `StepInv.ReplyRoInv` | server/ctdb_call.c:1016-1072 | a delegation reply, installed or ignored, keeps the invariant |
| `StepInv.UpdateInv` | server/ctdb_update_record.c:39-119 | an update of a revoke of this generation keeps the invariant |
| `StepInv.LateUpdateInv` | server/ctdb_update_record.c:39-119 | an update from before a recovery, stored, skipped or refused, keeps the invariant unless it is one of the named hazards |
| `StepInv.AckInv` | server/ctdb_call.c:1487-1509 | an answer to a revoke update keeps the invariant |
| `StepInv.FinishInv` | server/ctdb_call.c:1539-1600 | the end of a revoke keeps the invariant and never faults |
| `StepInv.StoreInv` | client/ctdb_client.c:643-714 | a store by a client on the owner keeps the ownership invariant always, and the coherence of the copies unless it puts other data over a delegated record |
| `StepInv.DeleteInv` | server/ctdb_recover.c:786-887 | a vacuum delete keeps the invariant |
| `StepInv.RecoverInv` | server/ctdb_recoverd.c:1278-1345 | a recovery that leaves an empty record nowhere and installs any other one under an agreed owner and value, marked as migrated with data, one sequence number or more above the other copies, with the read-only flags stripped, the tracking cleared and the revokes ended, establishes the invariant with all old packets still in flight |
| `StepInv.ResendInv` | server/ctdb_call.c:1179-1198 | a waiting call sent to the node itself again, under the new generation, keeps the invariant |
| `Tracking.AddPnn` | common/ctdb_ltdb.c:256-280 | setting the bit of a node adds that node to the set and nothing else, growing the buffer only as needed |
| `Tracking.Traverse` | common/ctdb_ltdb.c:282-297 | the walk visits exactly the nodes whose bit is set, each once, in order |
| `Tracking.RevokeState.SendCb` | server/ctdb_call.c:1511-1527 | an update that could not be sent marks the revoke as failed and is not waited for |
| `Tracking.RevokeState.UpdateRecordCb` | server/ctdb_call.c:1487-1509 | an answer is counted off, a failure is remembered, and the revoke ends with the last answer |
| `Tracking.RevokeState.Timeout` | server/ctdb_call.c:1529-1537 | a timeout ends the revoke as failed |
| `Tracking.PushAll` | server/ctdb_call.c:1539-1552 | after the walk over the bitmap exactly the nodes that could be sent the update are waited for, and the revoke is marked failed if one could not |
| `Tracking.StartChild` | server/ctdb_call.c:1539-1552 | when every send succeeds, all tracked nodes are waited for and the walk lists each of them once |
| `Tracking.RevokeAll` | server/ctdb_call.c:1539-1600 | the revoke succeeds if and only if there were delegates, every one of them was sent the update and every one of them answered with success before any timeout |
| `Daemon.Daemon.LtdbStore` | server/ctdb_ltdb_server.c:42-240 | the imperative store keeps, deletes and raises the sequence number as the store rule says |
| `Daemon.Daemon.LtdbFetch` | common/ctdb_ltdb.c:77-121 | the imperative fetch creates the initial record where the source does and returns the stored data |
| `Daemon.Daemon.SendDmasterReply` | server/ctdb_call.c:153-204 | refines the protocol step in which the location master hands the role on |
| `Daemon.Daemon.CallSendDmaster` | server/ctdb_call.c:213-262 | refines the protocol step in which the owner gives the role away |
| `Daemon.Daemon.CallLocal` | client/ctdb_client.c:71-135 | refines the protocol step that runs the call and stores what it wrote, and returns the reply that the history records for it, or nothing if the call failed |
| `Daemon.Daemon.BecomeDmaster` | server/ctdb_call.c:321-413 | refines the protocol step in which the role lands |
| `Daemon.Daemon.RequestDmaster` | server/ctdb_call.c:423-514 | refines the step of the location master, fault branch included |
| `Daemon.Daemon.StartRevoke` | server/ctdb_call.c:1603-1699 | refines the start of a revoke: the mark is stored and one update goes to each tracked node |
| `Daemon.Daemon.QueuePushes` | server/ctdb_call.c:1511-1552 | the loop sends exactly one update to every tracked node and waits for exactly those |
| `Daemon.Daemon.Delegate` | server/ctdb_call.c:863-914 | refines the delegation step: tracking bit, sequence number, read-only header |
| `Daemon.Daemon.ReplyCallRo` | server/ctdb_call.c:998-1085 | refines the installation of a delegated copy |
| `Daemon.Daemon.UpdateRecord` | server/ctdb_update_record.c:39-119 | refines the replace-only update and its answer |
| `Daemon.Daemon.AckReceived` | server/ctdb_call.c:1487-1509 | refines the answer of a push: counted off by the revoke that sent it, ignored when that one is gone |
| `Daemon.Daemon.RevokeFinish` | server/ctdb_call.c:1539-1600 | refines the end of a revoke |
| `Daemon.Daemon.FetchForCall` | server/ctdb_call.c:775-806 | refines the fetch at the start of a call and the clean-up after a completed revoke |
| `Daemon.Daemon.RequestCall` | server/ctdb_call.c:722-990 | refines the handling of a call from another node |
| `Daemon.Daemon.RouteCall` | server/ctdb_call.c:807-837 | refines the choice between parking, redirecting and answering |
| `Daemon.Daemon.AnswerCall` | server/ctdb_call.c:839-990 | refines the choice between revoke, delegation, migration and running the call |
| `Daemon.Daemon.ClientCall` | server/ctdb_daemon.c:594-798 | refines the entry of a call from a local client |
| `Daemon.Daemon.CallResend` | server/ctdb_call.c:1179-1198 | refines the resending of a waiting call to the node itself under the current generation |
| `Daemon.Daemon.RouteClient` | server/ctdb_daemon.c:687-798 | refines the choice between revoke, local run and a call sent out |
| `Daemon.Daemon.InputPkt` | server/ctdb_server.c:279-382 | a banned node, or another generation, stops exactly the call and dmaster packets, without any effect; every other packet of each kind has the effect of its handler, and pushes and their answers have it in any generation |
| `RbHeap.Tree.RotateLeft` | common/rb_tree.c:137-157 | the pointer rotation turns the shape exactly by one left rotation and touches nothing else |
| `RbHeap.Tree.RotateRight` | common/rb_tree.c:160-180 | the pointer rotation turns the shape exactly by one right rotation and touches nothing else |
| `RbHeap.Tree.Redirect` | common/rb_tree.c:141-149 | the parent, or the root, points to the new child and to nothing else |
| `RbRotate.TurnedLinked` | common/rb_tree.c:137-180 | a rotation keeps search order, parent links and the stored items |
| `RbInsertFix.RootRepaired` | common/rb_tree.c:305-315 | a red root is repaired by painting it black |
| `RbInsertFix.BlackParent` | common/rb_tree.c:292-303 | under a black parent the tree is already sound |
| `RbInsertFix.UncleRed` | common/rb_tree.c:272-290 | recolouring moves the only red-red edge to the grandparent and keeps black heights |
| `RbInsertFix.InnerTurned` | common/rb_tree.c:251-270 | the inner rotation makes the red pair straight and nothing worse |
| `RbInsertFix.OuterTurned` | common/rb_tree.c:234-249 | the outer rotation restores all red-black conditions |
| `RbInsertRun.InsertCase1` | common/rb_tree.c:305-315 | the fixup restores all red-black conditions, keeps the items and climbs at most half the depth of the node |
| `RbInsertRun.InsertCase2` | common/rb_tree.c:292-303 | under a black parent nothing is left to do, otherwise as case 3 |
| `RbInsertRun.InsertCase3` | common/rb_tree.c:272-290 | each recursion climbs two levels |
| `RbInsertRun.InsertCase4` | common/rb_tree.c:251-270 | with a black uncle the tree is restored without recursion |
| `RbInsertRun.InsertCase5` | common/rb_tree.c:234-249 | the last rotation restores the tree |
| `RbDeleteFix.AllBlack` | common/rb_tree.c:405-420 | with all relatives black the missing black moves up to the parent |
| `RbDeleteFix.AtRoot` | common/rb_tree.c:440-447 | a black missing at the root is missing nowhere |
| `RbDeleteFix.RedParent` | common/rb_tree.c:386-403 | a red parent pays the missing black |
| `RbDeleteFix.RedSibling` | common/rb_tree.c:422-438 | after the rotation of a red sibling the node still lacks one black and its parent is red |
| `RbDeleteFix.InnerNephew` | common/rb_tree.c:355-384 | the inner rotation brings a red outer nephew |
| `RbDeleteFix.OuterNephew` | common/rb_tree.c:335-353 | a red outer nephew pays the missing black |
| `RbDeleteRun.Sibling` | common/rb_tree.c:318-332 | the sibling always exists where the fixup reads it |
| `RbDeleteRun.DeleteCase1` | common/rb_tree.c:440-447 | the fixup restores all red-black conditions, keeps the items and climbs at most the depth of the node |
| `RbDeleteRun.DeleteCase2` | common/rb_tree.c:422-438 | as case 1 below a parent, and without recursion below a red sibling |
| `RbDeleteRun.DeleteCase3` | common/rb_tree.c:405-420 | each recursion climbs one level, and there is none below a red parent |
| `RbDeleteRun.DeleteCase4` | common/rb_tree.c:386-403 | terminates without recursion |
| `RbDeleteRun.DeleteCase5` | common/rb_tree.c:355-384 | terminates without recursion |
| `RbDeleteRun.DeleteCase6` | common/rb_tree.c:335-353 | the last rotation restores the tree |
| `RbRemoveRun.ReplaceByChild` | common/rb_tree.c:490-525 | a node with one child is replaced by it and the tree stays sound without exactly that node |
| `RbRemoveRun.ReplaceByDummy` | common/rb_tree.c:490-554 | a leaf is removed through the dummy black leaf, which is gone again at the end |
| `RbRemoveRun.Graft` | common/rb_tree.c:514-525 | the child takes the place of the removed node |
| `RbRemoveRun.Unhook` | common/rb_tree.c:545-554 | the dummy is unlinked from its parent or the root is cleared |
| `RbRemoveRun.RemoveNode` | common/rb_tree.c:490-554 | a node with at most one child leaves a sound tree without exactly that node, after at most depth climbs |
| `RbReplace.Predecessor` | common/rb_tree.c:464-470 | the search finds the node with the greatest smaller key in the left subtree, as many levels down as links followed |
| `RbReplace.TakePlace` | common/rb_tree.c:562-594 | the predecessor's node takes over place, links and colour of the removed one and nothing else changes |
| `RbReplace.SwapAndRemove` | common/rb_tree.c:464-594 | a node with two children is removed through its predecessor, whose own entry is kept; neither the way down nor the repair is longer than the depth of the predecessor |
| `RbReplace.DeleteNode` | common/rb_tree.c:450-602 | removal keeps every tree condition, removes exactly the node's key from the map and releases exactly that node, in fewer than 2*log2(n+1) steps down and as many climbs of the repair |
| `RbMap.Lookup32` | common/rb_tree.c:714-734 | lookup returns the map's entry after at most 2*log2(n+1) steps, n being the number of entries |
| `RbMap.CreateNode` | common/rb_tree.c:615-636 | a new red leaf with the given key |
| `RbMap.HangLeaf` | common/rb_tree.c:668-711 | hanging a leaf at the end of the search and repairing the tree adds exactly that entry, and the repair climbs at most half the depth of the leaf |
| `RbMap.Insert32` | common/rb_tree.c:645-711 | insertion keeps every tree condition, sets exactly the given key and returns the old payload, after at most 2*log2(n+1) steps down and half as many climbs of the repair |
| `RbHeight.HeightBound` | common/rb_tree.c:714-734 | every node's depth is at most 2*log2(n+1) |
| `RbHeight.OneNodeEach` | common/rb_tree.c:645-711 | the tree has exactly one node for each entry of the map |
| `RbHeight.FewLevels` | common/rb_tree.c:714-734 | a tree that holds n entries has at most 2*log2(n+1) levels |
| `RbTraverse.Traverse` | common/rb_tree.c:920-985 | a callback with a state of its own sees the entries of the map by ascending key, each once, up to the first for which it returns non-zero, which is the result |
| `RbTraverse.TraverseNode` | common/rb_tree.c:920-941 | the recursive walk is the in-order listing of the subtree up to the first non-zero return |
| `Stops.UntilMeans` | common/rb_tree.c:920-941 | what is seen is a beginning of the listing, all of it unless a callback stops the walk; only the last one seen can, and its answer is the result |
| `RbTraverse.InOrderLists` | common/rb_tree.c:920-941 | the in-order listing has every entry of the map once, by ascending key |
| `RbTraverse.FindFirst` | common/rb_tree.c:993-1023 | the first entry is that of the least key, and there is none exactly for the empty map |
| `NestedTree.NeverMixed` | common/rb_tree.c:897-915 | on prefix-free keys a lookup never takes a payload for a subtree or a subtree for a payload |
| `NestedTree.PrefixMixes` | common/rb_tree.c:837-915 | any two keys of which one is a proper prefix of the other do mix |
| `NestedTree.InsertAgrees` | common/rb_tree.c:837-890 | an inserted key is found with what the callback made of the old entry, and no empty subtree appears |
| `NestedTree.InsertKeepsOthers` | common/rb_tree.c:837-890 | insertion changes no other key |
| `NestedTree.RemoveAgrees` | common/rb_tree.c:596-612 | a removed key is missing and no empty subtree stays reachable |
| `NestedTree.RemoveKeepsOthers` | common/rb_tree.c:596-612 | removal changes no other key |
| `NestedTree.RunAgrees` | common/rb_tree.c:837-915 | after any sequence of inserts and removals lookups agree with the finite map |
| `NestedTree.EncodedKeys` | server/ctdb_daemon.c:510-527 | keys that start with their own word count are prefix-free |
| `NestedTree.EncodeAlike` | server/ctdb_daemon.c:510-527 | two record keys get the same tree key if and only if they have the same number of words and agree when padded with zeros to whole words |
| `NestedTree.VisitsSorted` | common/rb_tree.c:918-985 | on keys of one length the walk goes in strict lexicographic order |
| `NestedTree.VisitsExact` | common/rb_tree.c:918-985 | the walk visits exactly the stored entries |
| `NestedWalk.WalkStops` | common/rb_tree.c:918-985 | the walk over the nested trees, stopped by the callback at any level, sees exactly the beginning of that listing up to the stop |
| `NestedWalk.LevelOrder` | common/rb_tree.c:920-941 | what the heap tree of one level lists is, in order, what the nested walk goes through at that level |
| `NestedTree.FirstIsLeast` | common/rb_tree.c:993-1023 | the first entry is the first of the walk |
| `PacketStream.ReadBack` | common/ctdb_io.c:88-144 | the packets in a concatenation of packets are these packets |
| `PacketStream.ReadPrefix` | common/ctdb_io.c:88-144 | the packets in a prefix of the stream are a prefix of the packets |
| `PacketStream.SplitsMeans` | common/ctdb_io.c:88-144 | delivered packets and buffered bytes together are the bytes read, and delivery cut them where the stream's packets end |
| `PacketQueue.InQueue.Extract` | common/ctdb_io.c:88-144 | taking a packet out and moving the rest down loses and changes no byte |
| `PacketQueue.InQueue.Process` | common/ctdb_io.c:88-144 | exactly the first complete packet is delivered and leaves the buffer, an incomplete one waits, a bad length is reported once, and a large buffer is given back when it is empty |
| `PacketQueue.InQueue.ProcessEvent` | common/ctdb_io.c:73-86 | every immediate event delivers the next complete packet or reports a bad length |
| `PacketQueue.InQueue.Prepare` | common/ctdb_io.c:172-190 | growing or shrinking the buffer keeps its content and always leaves room while a packet is incomplete |
| `PacketQueue.InQueue.IoRead` | common/ctdb_io.c:151-211 | the bytes taken are appended to what was read, some are taken whenever a packet is incomplete, the first packet that is then complete is delivered, and a closed descriptor or a failed read is reported and delivers nothing |
| `PacketQueue.InQueue.Fetch` | common/ctdb_io.c:172-206 | the read goes behind what is buffered, a failed one changes nothing |
| `PacketQueue.InQueue.Append` | common/ctdb_io.c:192-206 | read bytes go behind the buffered ones |
| `PacketQueue.Padded` | common/ctdb_io.c:286-310 | the packet is the data, padded with zeros to the alignment, with its length in the first word |
| `PacketQueue.OutQueue.IoWrite` | common/ctdb_io.c:226-265 | for any answers to the writes, the packets before the first that is not taken whole are on the wire and gone from the queue, and that answer decides the rest: a short write leaves the end of its packet, a failure closes the connection, reports it and drops the packet if it was half written, anything else leaves the queue alone |
| `PacketQueue.OutQueue.WriteHead` | common/ctdb_io.c:228-262 | what one answer does to the first packet, the wire and the connection |
| `PacketQueue.OutQueue.Advance` | common/ctdb_io.c:252-265 | written bytes leave the head of the queue and a packet leaves with its last byte |
| `PacketQueue.OutQueue.Enqueue` | common/ctdb_io.c:320-342 | what was not written at once is queued at the end |
| `PacketQueue.OutQueue.Fail` | common/ctdb_io.c:232-245 | a failed write drops the half-written head and nothing else |
| `PacketQueue.OutQueue.Send` | common/ctdb_io.c:286-342 | with nothing queued on an open connection the answer to the immediate write decides: a failure closes the connection, reports it and queues nothing, otherwise exactly the bytes taken are on the wire and the rest of the packet is queued; in all other cases the whole packet is queued |
| `PacketQueue.OutQueue.SetFd` | common/ctdb_io.c:374-394 | a new descriptor makes the queued packets those of a new stream; it will carry exactly them, and the queue stays sound, if and only if none was half written; a report of a dead connection that is due stays due |
| `PacketQueue.OutQueue.QueueDead` | common/ctdb_io.c:215-220 | the report is made once |
| `PacketQueue.RoundTrip` | common/ctdb_io.c:88-342 | at any moment the delivered packets are a prefix of the accepted ones, and all of them once everything was written, read and processed |
| `PacketLink.Exchange` | common/ctdb_io.c:88-342 | for any run of sends, writable and readable events and failures over one connection, the receiver has delivered a beginning of the packets sent, and all of them once everything is written, read and processed |
| `IbReceive.Part.AppendToPart` | ib/ibwrapper.c:759-795 | bytes are appended to the unfinished message and counted off what is still to read |
| `IbReceive.Part.Deliver` | ib/ibwrapper.c:854-876 | a complete message is delivered once |
| `IbReceive.Part.Continue` | ib/ibwrapper.c:837-841 | the unfinished message takes the bytes it still needs |
| `IbReceive.Part.Finish` | ib/ibwrapper.c:843-861 | a finished length is turned into the number of bytes to come, a finished message is delivered |
| `IbReceive.Part.Begin` | ib/ibwrapper.c:862-893 | a new message is delivered at once if it is whole and kept otherwise |
| `IbReceive.Part.Round` | ib/ibwrapper.c:834-894 | each round of the loop takes some bytes, or stops at a bad length |
| `IbReceive.Part.WcRecv` | ib/ibwrapper.c:817-904 | a fragment's messages are delivered in order, a message split over fragments is put together, the unfinished tail is kept, and failure comes exactly from a length below a word |
| `IbReceive.NeverFails` | ib/ibwrapper.c:817-904 | a stream of proper messages never brings a length below a word |
| `IbSendInv.SendKeepsInv` | ib/ibwrapper.c:1293-1333 | sending a message, fragmented or not, keeps credit, queue, reference counts and stream, and appends the message |
| `IbSendInv.CompleteDue` | ib/ibwrapper.c:707-757 | a completion releases the slot if and only if it is its last outstanding fragment |
| `IbSendInv.ProcessKeepsInv` | ib/ibwrapper.c:668-705 | the head of the queue takes the free credit and its next fragment is the next of the stream |
| `IbConn.StepKeepsInv` | ib/ibwrapper.c:668-757 | every event keeps the sender's invariant, in any order of completions |
| `IbConn.AllocKeepsInv` | ib/ibwrapper.c:1163-1227 | handing out a slot keeps the invariant |
| `IbConn.AllocHands` | ib/ibwrapper.c:1163-1227 | one free slot is handed out: of the pool while there is one, then an extra one, and a new extra one only when there is none; a pool slot gets a large buffer exactly if the message does not fit |
| `IbConn.FewestFragments` | ib/ibwrapper.c:1293-1333 | a message goes out in as many fragments as buffers it fills, and no more |
| `IbConn.RunKeepsInv` | ib/ibwrapper.c:668-757 | the invariant holds in every state of every run |
| `IbConn.CreditAndRelease` | ib/ibwrapper.c:682-756 | posted fragments never exceed the credit, a waiting fragment means the credit is used up, every fragment fits a buffer, and a slot is held exactly while a fragment of it is posted or waits |
| `IbConn.StreamEquality` | ib/ibwrapper.c:668-904 | for any interleaving the posted fragments are a prefix of the messages, the receiver delivers a prefix of the messages once each and in order, and all of them when nothing waits or is under way |
| `IbConn.ReceiverNeverFails` | ib/ibwrapper.c:817-904 | fed by this sender, the receiver never meets a bad length |
| `IbLink.Exchange` | ib/ibwrapper.c:668-904 | for any run of messages, completions and arrivals over one connection, the receiver has delivered a beginning of the messages sent, and all of them once everything has arrived |
| `IbConn.Conn.AllocSendBuf` | ib/ibwrapper.c:1163-1227 | a free slot is handed out as above, and it is the one returned |
| `IbConn.Conn.SendPacket` | ib/ibwrapper.c:1230-1291 | a fragment is posted while there is credit and waits otherwise |
| `IbConn.Conn.Send` | ib/ibwrapper.c:1293-1333 | the loop over the fragments refines the send step and keeps the invariant |
| `IbConn.Conn.SendFragments` | ib/ibwrapper.c:1311-1325 | the loop sends exactly the fragments of the message, in order, each counted |
| `IbConn.Conn.SendMsg` | ib/ibwrapper.c:1293-1333 | refines the send step |
| `IbConn.Conn.SendFragment` | ib/ibwrapper.c:1311-1325 | one fragment is sent and counted |
| `IbConn.Conn.FreeSlot` | ib/ibwrapper.c:730-753 | the large buffer is dropped and the slot goes back to its list |
| `IbConn.Conn.ProcessQueue` | ib/ibwrapper.c:668-705 | refines the step in which the head of the queue is posted |
| `IbConn.Conn.CompleteSlot` | ib/ibwrapper.c:707-750 | refines the count of a completed fragment and the release of its slot |
| `IbConn.Conn.WcSend` | ib/ibwrapper.c:707-757 | a completion is a step of the run and keeps the invariant |
| `LockQueue.ScheduleKeepsInv` | server/ctdb_lock.c:720-875 | one scheduling round restores rest: the limit is reached or every pending context with requests has an active twin |
| `LockQueue.WalkTakesFirst` | server/ctdb_lock.c:737-777 | the walk starts the first context that can be started, drops those without requests before it, and keeps all others in order |
| `LockQueue.AskKeepsInv` | server/ctdb_lock.c:881-950 | a new request keeps distinct contexts, counters and rest |
| `LockQueue.TellKeepsInv` | server/ctdb_lock.c:327-384 | a callback keeps them |
| `LockQueue.RepeatKeepsInv` | server/ctdb_lock.c:423-486 | the death of an answered child of a context without auto-mark keeps them |
| `LockQueue.FreeKeepsInv` | server/ctdb_lock.c:277-299 | freeing an active context schedules the next one |
| `LockQueue.CancelKeepsInv` | server/ctdb_lock.c:305-325 | a freed request of a pending context leaves it without disturbing the rest |
| `LockQueue.WithdrawKeepsInv` | server/ctdb_lock.c:305-325 | a freed request of an active context leaves it without disturbing the rest |
| `LockQueue.ScheduleLine` | server/ctdb_lock.c:720-875 | scheduling keeps every lock's line of waiting requests |
| `LockQueue.JoinLine` | server/ctdb_lock.c:881-950 | a new request goes to the end of its lock's line and of no other |
| `LockQueue.TellLine` | server/ctdb_lock.c:327-384 | a callback of the first round takes the first request of its lock's line; one of a later round none |
| `LockQueue.RepeatLine` | server/ctdb_lock.c:423-486 | and puts nobody in line again |
| `LockQueue.FreeLine` | server/ctdb_lock.c:277-299 | freeing an answered context keeps every line |
| `LockQueue.CancelLine` | server/ctdb_lock.c:302-309 | a freed request of a pending context is no longer in it; it leaves its lock's line and the others keep their order |
| `LockQueue.WithdrawLine` | server/ctdb_lock.c:302-309 | a freed request of an active context is no longer in it; if it was not called yet it leaves its lock's line, and the others keep their order |
| `LockRuns.RunIsFair` | server/ctdb_lock.c:327-950 | in every run, whatever children die, the requests in the order of their first callbacks and those waiting are, per lock, the requests made, in order, and a request of a context with auto-mark is called at most once |
| `LockRuns.SchedulerIsSafe` | server/ctdb_lock.c:277-950 | at every rest point counters and limit are right, no two active and no two pending contexts cover one lock, the limit is reached or every pending context has an active twin, each lock's requests have their first callbacks in arrival order, all of them when the lock is idle, and those under auto-mark have no other |
| `LockTwice.TwiceExactly` | server/ctdb_lock.c:423-486 | from any rest point, a request can still be called twice if and only if it is held by a context without auto-mark, pending or active |
| `LockTwice.MarkIsShared` | server/ctdb_lock.c:881-950 | a request that asks for auto-mark but joins a context without can be called twice |
| `LockFreed.FreedIsGone` | server/ctdb_lock.c:302-309 | after a request is freed no context holds it; its context has lost exactly that one entry, and the line of its lock too if it still waited; every other request keeps its place |
| `LockFreed.NeverCalledAgain` | server/ctdb_lock.c:302-309 | in every continuation of the run no context holds a freed request and it is never called again |
| `LockScheduler.Scheduler.FindLockContext` | server/ctdb_lock.c:666-713 | the search finds the first context of the lock |
| `LockScheduler.Scheduler.FindStartable` | server/ctdb_lock.c:737-777 | the walk drops contexts without requests and stops at the first that has no active twin |
| `LockScheduler.Scheduler.ScheduleChild` | server/ctdb_lock.c:720-875 | the loop refines one scheduling round |
| `LockScheduler.Scheduler.LockInternal` | server/ctdb_lock.c:881-950 | a request joins the pending context of its lock or makes one, and scheduling follows |
| `LockScheduler.Scheduler.CallBack` | server/ctdb_lock.c:327-384 | exactly the next request of the context is called |
| `LockScheduler.Scheduler.FreeContext` | server/ctdb_lock.c:277-299 | refines the release of an active context |
| `LockScheduler.Scheduler.CancelRequest` | server/ctdb_lock.c:302-309 | refines the freeing of a request in a pending context |
| `LockScheduler.Scheduler.WithdrawRequest` | server/ctdb_lock.c:302-309 | refines the freeing of a request in an active context |
| `LockScheduler.Scheduler.AskAll` | server/ctdb_lock.c:327-384 | requests made inside a callback are made for the locks and marks asked for, in order, and leave the active contexts alone |
| `LockScheduler.Scheduler.CallAll` | server/ctdb_lock.c:327-384 | one round calls the requests of the context once each and in order, even if callbacks make new requests |
| `LockScheduler.Scheduler.LockHandler` | server/ctdb_lock.c:423-486 | all requests of the context, and no other, are called once each and in order, when its child answers and again whenever it dies after that; only the first time counts as their turn; with auto-mark, or when a callback frees it, the context is gone and holds none of them |
| `LockScheduler.RoundServes` | server/ctdb_lock.c:327-384 | a round of callbacks serves the requests of its context, in order, if it is the first, and nobody otherwise |
| `Marshall.ReadBackRec` | common/ctdb_util.c:192-220 | a marshalled record reads back at its offset, whatever is around it |
| `Marshall.EncodeLayout` | common/ctdb_util.c:192-220 | the record has its length, request id, key length and data length in the first four words, then the key and the data |
| `Marshall.AddHolds` | common/ctdb_util.c:223-265 | adding a record appends exactly that record to what the buffer holds |
| `Marshall.AddAllHolds` | common/ctdb_util.c:223-279 | the buffer built by any sequence of adds holds these records in order |
| `Marshall.LoopNext` | common/ctdb_util.c:282-318 | one loop step returns the next record and the offset after it |
| `Marshall.Loop` | common/ctdb_util.c:282-318 | looping count times returns the records that were added, in order |
| `Marshall.HeaderComesBack` | common/ctdb_util.c:296-318 | a header added with a record is split from its data again |
| `RecordHeader.HeaderReadBack` | include/ctdb_protocol.h:514-534 | the rsn, dmaster and flags written into the 24 bytes of a header are read back, whatever the reserved word and the padding |
| `RecordHeader.WordIsLittleEndian` | common/ctdb_util.c:192-220 | the words of marshalled records and packets have the lowest byte first, as those of a header |
| `VacuumDelete.MastersKept` | server/ctdb_recover.c:786-887 | a delete removes only the named key, never on its location master, and of a well-formed record never the owner's, a read-only or a newer copy than the header sent |
| `VacuumDelete.DeletedExactly` | server/ctdb_recover.c:786-887 | a record disappears if and only if it is the one named, this node is not its location master, both locks and the delete succeed, and it is corrupt, or not newer than the header sent, not owned by this node, and neither header has a read-only flag |
| `VacuumDelete.DeletesAreAllowed` | server/ctdb_recover.c:786-887 | of a well-formed record these are exactly the deletes that the cluster protocol allows |
| `VacuumDelete.SuccessExactly` | server/ctdb_recover.c:786-887 | success is reported if and only if this node is not the location master, a header was sent, the chain was locked, and the record is then gone or was corrupt |
| `VacuumDelete.SuccessMeansGone` | server/ctdb_recover.c:786-887 | after a reported success the record is gone, if and only if it was not a corrupt record whose lock or delete failed |
| `VacuumDelete.KeptIsSubsequence` | server/ctdb_recover.c:1055-1097 | the refused records are a subsequence of the request |
| `VacuumDelete.KeptExactly` | server/ctdb_recover.c:1055-1097 | a record is in the reply if and only if it was refused when its turn came |
| `VacuumDelete.UnkeptIsGone` | server/ctdb_recover.c:1020-1100 | a record that is not sent back is gone after the whole request, or was stored corrupt |
| `VacuumDelete.RequestKeepsMasters` | server/ctdb_recover.c:1020-1100 | a whole request removes no owner's, no location master's and no read-only copy, and none that is newer than the header sent for it |
| `VacuumDelete.OnlyRemoved` | server/ctdb_recover.c:1020-1100 | a request changes no record it does not remove |
| `VacuumDelete.Vacuum.DeleteTdbRecord` | server/ctdb_recover.c:786-887 | refines one delete, refusals and failures included |
| `VacuumDelete.Vacuum.TryOne` | server/ctdb_recover.c:1055-1097 | the record is appended to the reply if and only if its delete was refused |
| `VacuumDelete.Vacuum.TryDeleteRecords` | server/ctdb_recover.c:1020-1100 | the reply parses to exactly the refused records in order; a record shorter than a header ends the request with an error after the deletes before it |
| `Commit.StartKeeps` | server/ctdb_persistent.c:162-264 | starting a commit, every refusal included, keeps the counting invariant |
| `Commit.AckKeeps` | server/ctdb_persistent.c:49-88 | an answer of a node keeps it |
| `Commit.TimeoutKeeps` | server/ctdb_persistent.c:94-111 | a timeout keeps it |
| `Commit.FinishKeeps` | server/ctdb_persistent.c:117-140 | a recovery answers and ends exactly the active commits |
| `Commit.ExitKeeps` | server/ctdb_daemon.c:229-256 | the exit of a client keeps it and clears the client |
| `Commit.CommitsAreCounted` | server/ctdb_persistent.c:49-264 | in every run each database and each client has at most one active commit, each commit is answered at most once, and one that was begun is answered with status 0 if and only if every node the update went to acknowledged with status 0 |
| `Commit.EndingsTold` | server/ctdb_persistent.c:49-264 | every step of every run gives exactly these answers: 0 with the last acknowledgement, 1 for a timeout, 2 for each active commit at the end of a recovery, and at once 0 for a commit without nodes and an error for one that is refused |
| `Commit.NoneForgotten` | server/ctdb_persistent.c:49-264 | at every step a commit goes on, with the replies it has heard, or is answered, or its client has left; a failing node and a leaving client start a recovery, and nothing else does |
| `Commit.Daemon.SendAll` | server/ctdb_persistent.c:216-246 | the loop sends to exactly the active nodes and counts them |
| `Commit.Daemon.TransCommit` | server/ctdb_persistent.c:162-264 | refines the start of a commit |
| `Commit.Daemon.Callback` | server/ctdb_persistent.c:49-88 | refines the count of one answer |
| `Commit.Daemon.ReplyAndFree` | server/ctdb_persistent.c:80-88 | the commit is answered once and its database and client are free again |
| `Commit.Daemon.StoreTimeout` | server/ctdb_persistent.c:94-111 | refines the timeout |
| `Commit.Daemon.FinishTrans3Commits` | server/ctdb_persistent.c:117-140 | refines the end of all commits at a recovery |
| `Commit.Daemon.ClientGone` | server/ctdb_persistent.c:145-156 | refines the release of a client's commit |

## Left out

- Sequence numbers are unbounded; the source's are 64 bits wide.
- Persistent databases in the migration protocol, sticky records and pindown (which only delay a delivery), hot-record migration hints, and several keys at once.
- The recovery itself: a recovery is one step that installs an agreed owner and value.
- Bans: only `Daemon.InputPkt` knows a banned node.
- NestedTree.InsertAgrees: each level is a map, which is what `RbMap` and `RbReplace` prove a heap tree to be and what `NestedWalk.LevelOrder` orders as the heap walk does; the linking of the levels in place is not captured.
- trbt_delete32 called outside a destructor, insert callbacks that free the old payload, and the printing of trees.
- PacketQueue.InQueue.Process: a callback that frees its queue and failed allocations are not modelled; the source shares one immediate event between the processing of packets and the report of a dead queue, so that a failed write replaces a scheduled round, while the in-queue and the out-queue of the model are independent.
- PacketQueue.OutQueue.SetFd: the closing of the old descriptor is part of the step, not one of its own.
- IbConn.Conn.AllocSendBuf: which free slot is taken is open, and extra slots are found by their number instead of by address.
- IbReceive.Part.WcRecv: the receive callback is taken to succeed.
- ibw_cancel_send_buf, connection set-up, and every rdma and verbs call of the InfiniBand path.
- LockScheduler.Scheduler.ScheduleChild: process creation, pipes and timers do not fail; the locking of all databases at once, statistics, and the marking of tdb locks are not modelled; only active contexts are freed, and a callback frees its context only as the last of its round.
- Marshall.AddHolds: lengths fit the 32-bit fields.
- VacuumDelete.MastersKept: a stored record shorter than a header is a case of its own (`Corrupt`) about which only its deletion is stated.
- Commit.Daemon.TransCommit: the answer of a node is what the control layer reports for it.
- ctdb_fetch_readonly_lock: this is the client that does test the delegation flags before it hands the record out; the stores of the model are those of ctdb_fetch_lock, which does not.
- Client transactions and g_lock: built from the calls, stores and commits modelled here, with the record format as the only new matter.
- The choice of the recovery master, the gathering of databases in a recovery, and the hand-over of public addresses: protocols of their own, on other state than a record.
- The control dispatcher, the parsing of the wire format of packets other than their length, and the configuration: one branch or field after another, with nothing that spans them.
- Monitoring, event scripts, logging, sockets and the platform files: their results come from outside the program.
