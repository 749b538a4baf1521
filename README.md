# Resource manager node — Dafny model

This project models one node of a distributed resource manager. Each node
owns a set of named resources, arbitrates reader/writer access to them for
clients, enables and disables them, and locates resources it does not own by
asking its peer managers. The node handles one message at a time.

The model is a class, `ResourceManager.ResourceManagerActor`, whose fields
are the node's private tables:

- `localResource`: the resources the node owns, each ENABLED or DISABLED.
- `knownRemote`: the cache of owners found on peers.
- `allManagers`: the peer set.
- `resourceAccess`: the lock table, an ordered list of (holder, mode) grants per resource.
- `accessQueue`: one global FIFO of blocked access requests.
- `pendingDisable`: the DISABLE requests recorded per resource.
- `discoveryMap`: the open discovery sessions, each a reply counter plus an ordered buffer of operations.

Each inbound message has one method. A message the node sends (a reply, a
forward or a locate query) is appended to the `outbox` field as a
(destination, message) envelope.

The modules follow the structure of the handler:

- `Protocol` (protocol.dfy): the message catalogue and its enumerations.
- `LockTable` (lock_table.dfy): grants, the compatibility rule, mutual exclusion, and the scans run over a grant list.
- `AccessQueue` (access_queue.dfy): the queue filters used by DISABLE, and the head-of-line re-evaluation pass as a pure function with its lemmas.
- `Discovery` (discovery.dfy): sessions, the locate broadcast, and the messages a resolving session sends.
- `ResourceManager` (resource_manager.dfy): the node class and its handlers.
- `Scenarios` (scenarios.dfy): verified message sequences on fresh nodes.

The node invariant `Valid()` has four main parts:

- mutual exclusion on every resource;
- no grant on a DISABLED resource;
- every queued request names a local, ENABLED resource with no recorded DISABLE and with a lock-table entry, and is of a blocking kind;
- every discovery session buffers at least one operation, all for its own name.

In addition, the node is never its own peer. Every handler keeps the
invariant. Every routing handler also keeps the three name tables disjoint
(`Partitioned()`: local, cached remote, being discovered).

Behaviour of the code that is easy to misread, which the model follows:

- Queue re-evaluation runs after every release message, including ignored, forwarded and buffered ones, not only after a successful release (`ReceiveAccessRelease`, lines 552-555). A release can therefore grant queued requests even when it released nothing. This happens when a DISABLE purged the request that blocked the head of the queue.
- A DISABLE granted at once, on an ENABLED resource with no grants, is also recorded in `pendingDisable` (lines 446-451). Only a later ENABLE removes it.
- Draining a resource does not clear its `pendingDisable` entry (lines 347-358).
- An ENABLE of a resource that is still ENABLED but draining leaves the recorded DISABLE in place. The resource is then disabled when the last grant is released.
- With no peers, a new discovery session starts with a count of 0 and sends no query, so it never resolves. Only a negative reply counts down, and the test is for exactly zero (lines 609-612).
- The counter is kept once per session. In the source it lives on the first buffered element only.
- A positive reply for a name with no open session changes nothing (lines 583-585).

A resource has a lock-table entry exactly when it has one in the source. The
source creates an empty entry at lines 214-216 for an access request that gets
past the disabled check; such a request is either granted, which gives it an
entry in the model too, or blocked by an existing grant, so the entry exists
already. A DISABLE of an ENABLED resource creates the entry in both (lines
403-405). The invariant also states that every queued request names a resource with an
entry, so the re-evaluation pass never looks up a missing list (lines
499-502). Elsewhere a resource with no entry reads as having no grants; the one
place where the difference is visible is the release at lines 326-327, listed
under Findings.

## Model

| member | source | states |
|---|---|---|
| LockTable.CanAccess | p4/src/cmsc433/p4/actors/ResourceManagerActor.java:234-252 | the scan answers true exactly when every existing grant is the requester's own, or is a read grant facing a read request |
| LockTable.FindGrant | p4/src/cmsc433/p4/actors/ResourceManagerActor.java:326-340 | it reports whether a grant with this holder and mode exists; when one does, the index is that of the first such grant |
| LockTable.HoldsAccess | p4/src/cmsc433/p4/actors/ResourceManagerActor.java:410-418 | true exactly when the requester holds some grant on the resource, in either mode |
| LockTable.AdmitKeepsExclusive | p4/src/cmsc433/p4/actors/ResourceManagerActor.java:255-267 | appending a grant for a compatible request, in the mode of its kind, keeps mutual exclusion |
| LockTable.ReadersShare | p4/src/cmsc433/p4/actors/ResourceManagerActor.java:243-251 | read grants of any holders never block a read request, and the list stays mutually exclusive after it is granted |
| LockTable.WriterBlocksOthers | p4/src/cmsc433/p4/actors/ResourceManagerActor.java:240-242 | a write grant held by another holder makes every request incompatible |
| LockTable.ReaderBlocksWriter | p4/src/cmsc433/p4/actors/ResourceManagerActor.java:243-250 | a read grant held by another holder makes every write request incompatible |
| LockTable.RemoveKeepsExclusive | p4/src/cmsc433/p4/actors/ResourceManagerActor.java:330-340 | removing one grant keeps mutual exclusion |
| LockTable.RemoveFirstAt | p4/src/cmsc433/p4/actors/ResourceManagerActor.java:330-340 | the release removes exactly the first grant matching holder and mode, and keeps the order of the others |
| LockTable.RemoveFirstAbsent | p4/src/cmsc433/p4/actors/ResourceManagerActor.java:343-345 | with no matching grant the list is unchanged |
| LockTable.RemoveFirstMultiset | p4/src/cmsc433/p4/actors/ResourceManagerActor.java:330-340 | the release removes one matching grant at most, and nothing else |
| AccessQueue.Without | p4/src/cmsc433/p4/actors/ResourceManagerActor.java:429-441 | what the purge keeps comes from the queue and never names the disabled resource |
| AccessQueue.Naming | p4/src/cmsc433/p4/actors/ResourceManagerActor.java:429-441 | what the purge removes comes from the queue and names the disabled resource |
| AccessQueue.WithoutAppend | p4/src/cmsc433/p4/actors/ResourceManagerActor.java:429-441 | the kept entries of a concatenated queue are the kept entries of each part, in order |
| AccessQueue.NamingAppend | p4/src/cmsc433/p4/actors/ResourceManagerActor.java:429-441 | the removed entries of a concatenated queue are the removed entries of each part, in order |
| AccessQueue.PurgePartition | p4/src/cmsc433/p4/actors/ResourceManagerActor.java:429-441 | each queued request is either kept or removed, and none is lost or duplicated |
| AccessQueue.WithoutUnrelated | p4/src/cmsc433/p4/actors/ResourceManagerActor.java:429-441 | a queue with no request for the resource is left as it is |
| AccessQueue.Purge | p4/src/cmsc433/p4/actors/ResourceManagerActor.java:429-441 | the iterator loop yields the kept requests and the removed ones, each in queue order |
| AccessQueue.AdmitKeepsTableExclusive | p4/src/cmsc433/p4/actors/ResourceManagerActor.java:255-267 | granting a compatible request keeps mutual exclusion on every resource of the table |
| AccessQueue.Reevaluate | p4/src/cmsc433/p4/actors/ResourceManagerActor.java:489-526 | a pass never grants more requests than the queue holds |
| AccessQueue.ReevaluateGrantsPrefix | p4/src/cmsc433/p4/actors/ResourceManagerActor.java:489-526 | the granted requests are a prefix of the queue; each was compatible with the grants in force at its turn; the new table is the old one plus exactly those grants, in order |
| AccessQueue.ReevaluateStopsAtBlocker | p4/src/cmsc433/p4/actors/ResourceManagerActor.java:518-523 | a pass stops only at the end of the queue or at the first incompatible request, so the granted prefix is maximal |
| AccessQueue.ReevaluateKeepsExclusive | p4/src/cmsc433/p4/actors/ResourceManagerActor.java:489-526 | granting through the queue keeps mutual exclusion on every resource |
| AccessQueue.HeadOfLineBlocking | p4/src/cmsc433/p4/actors/ResourceManagerActor.java:521-523 | when the head is blocked nothing is granted, whatever stands behind it |
| Discovery.Broadcast | p4/src/cmsc433/p4/actors/ResourceManagerActor.java:188-196 | exactly one locate query goes to each peer, and the count equals the number of peers |
| Discovery.NotFoundRepliesAnswerEveryRequest | p4/src/cmsc433/p4/actors/ResourceManagerActor.java:613-634 | an exhausted session sends only not-found denials, and one reaches the requester of every buffered access and management request |
| Discovery.NotFoundRepliesOfReleases | p4/src/cmsc433/p4/actors/ResourceManagerActor.java:628-633 | buffered releases get no reply |
| Discovery.NotFoundRepliesSkipReleases | p4/src/cmsc433/p4/actors/ResourceManagerActor.java:613-633 | for any buffer, releases mixed in or not, the replies of an exhausted session are exactly those of its access and management requests in buffer order, one per request; the releases add none |
| ResourceManager.ResourceManagerActor.constructor | p4/src/cmsc433/p4/actors/ResourceManagerActor.java:67-83 | a new node has empty tables and satisfies the invariant |
| ResourceManager.ResourceManagerActor.AddRemoteManagers | p4/src/cmsc433/p4/actors/ResourceManagerActor.java:124-135 | every listed manager except the node itself becomes a peer, and the request is acknowledged to its sender |
| ResourceManager.ResourceManagerActor.AddInitialLocalResources | p4/src/cmsc433/p4/actors/ResourceManagerActor.java:137-151 | every listed resource becomes local and ENABLED, and the request is acknowledged |
| ResourceManager.ResourceManagerActor.AddLocalUsers | p4/src/cmsc433/p4/actors/ResourceManagerActor.java:153-161 | the request is acknowledged and nothing else changes |
| ResourceManager.ResourceManagerActor.RouteElsewhere | p4/src/cmsc433/p4/actors/ResourceManagerActor.java:174-198 | a message for a non-local resource either goes verbatim to the cached owner, or joins the open session's buffer, or opens a session counting one reply per peer, after a query to each peer |
| ResourceManager.ResourceManagerActor.ArbitrateLocal | p4/src/cmsc433/p4/actors/ResourceManagerActor.java:200-284 | the request is denied RESOURCE_DISABLED when the resource is disabled or has a recorded DISABLE. Otherwise: a compatible request gets exactly one grant in its kind's mode, whatever its blocking flag; an incompatible blocking one joins the end of the queue; an incompatible nonblocking one is denied RESOURCE_BUSY. Nothing else changes |
| ResourceManager.ResourceManagerActor.ReceiveAccessRequest | p4/src/cmsc433/p4/actors/ResourceManagerActor.java:166-285 | a request is routed when its resource is not local and arbitrated when it is |
| ResourceManager.ResourceManagerActor.ReleaseAccess | p4/src/cmsc433/p4/actors/ResourceManagerActor.java:288-361 | on a local resource, the first matching grant is removed, or the release is ignored when none matches. When the list is then empty, the resource is ENABLED and a DISABLE is recorded, the resource becomes DISABLED and every recorded DISABLE is granted. A non-empty list never disables. A non-local release is routed |
| ResourceManager.ResourceManagerActor.CompleteDisable | p4/src/cmsc433/p4/actors/ResourceManagerActor.java:347-358 | a drained resource becomes DISABLED and the recorded DISABLE requests are granted, in order |
| ResourceManager.ResourceManagerActor.HeadGrantable | p4/src/cmsc433/p4/actors/ResourceManagerActor.java:493-516 | true exactly when the queue is non-empty and its head is compatible with the current grants |
| ResourceManager.ResourceManagerActor.GrantHead | p4/src/cmsc433/p4/actors/ResourceManagerActor.java:518-520 | a compatible head is granted and leaves the queue |
| ResourceManager.ResourceManagerActor.GrantNext | p4/src/cmsc433/p4/actors/ResourceManagerActor.java:518-520 | one turn of the pass grants the compatible head, and the requests granted so far, their replies and the rest of the pass still add up to the pass over the starting queue and table |
| ResourceManager.ResourceManagerActor.GrantRequestOnRelease | p4/src/cmsc433/p4/actors/ResourceManagerActor.java:489-526 | the queue loses exactly the prefix the pass grants, the lock table becomes the one the pass computes, and each granted requester gets a grant reply in queue order |
| ResourceManager.ResourceManagerActor.ReceiveAccessRelease | p4/src/cmsc433/p4/actors/ResourceManagerActor.java:552-555 | a release message is the release step followed by one re-evaluation pass against the table the release left; the grant replies follow the release step's own messages |
| ResourceManager.ResourceManagerActor.ReceiveAccessReleaseAsWritten | p4/src/cmsc433/p4/actors/ResourceManagerActor.java:326-327 | as written, a release throws exactly when its resource is local and has no lock-table entry; the model stops at the throw, where no field has changed, nothing has been sent and the re-evaluation pass at line 555 has not run; every other release is handled as `ReceiveAccessRelease` states |
| ResourceManager.ResourceManagerActor.DenyQueued | p4/src/cmsc433/p4/actors/ResourceManagerActor.java:429-441 | every queued request for the resource leaves the queue and is denied RESOURCE_DISABLED; the rest keep their order |
| ResourceManager.ResourceManagerActor.DisableLocal | p4/src/cmsc433/p4/actors/ResourceManagerActor.java:428-464 | after the purge the DISABLE is recorded; with no grant held the resource is disabled and the request granted at once, otherwise it waits |
| ResourceManager.ResourceManagerActor.ReceiveManagementRequest | p4/src/cmsc433/p4/actors/ResourceManagerActor.java:364-485 | a DISABLE of an ENABLED resource first gives it a grant list, empty if it had none; a DISABLE from a holder is then denied ACCESS_HELD_BY_USER and nothing else changes; a DISABLE of a DISABLED resource and every ENABLE are granted; an ENABLE of a DISABLED resource re-enables it and drops its recorded DISABLE requests; a DISABLE otherwise purges and then disables or waits; a non-local request is routed |
| ResourceManager.ResourceManagerActor.ReceiveWhoHasRequest | p4/src/cmsc433/p4/actors/ResourceManagerActor.java:566-575 | a locate query is answered with whether the resource is local, and nothing else changes |
| ResourceManager.ResourceManagerActor.FlushSession | p4/src/cmsc433/p4/actors/ResourceManagerActor.java:584-606 | every buffered operation is forwarded, in order, to the responder, which becomes the cached owner; the session is dropped |
| ResourceManager.ResourceManagerActor.CountDown | p4/src/cmsc433/p4/actors/ResourceManagerActor.java:608-638 | a negative reply lowers the count by one; at zero the session sends its not-found denials and is dropped |
| ResourceManager.ResourceManagerActor.ReceiveWhoHasResponse | p4/src/cmsc433/p4/actors/ResourceManagerActor.java:576-640 | a reply with no open session changes nothing; a positive one flushes the session to the responder; a negative one counts down |
| ResourceManager.ResourceManagerActor.OnReceive | p4/src/cmsc433/p4/actors/ResourceManagerActor.java:539-641 | every message keeps the invariant; each handled kind has exactly the effect its handler states (configuration, arbitration or routing, release and re-evaluation, management or routing, locate query, locate reply); a kind the node does not handle changes nothing |
| Scenarios.PrinterOwner | p4/src/cmsc433/p4/actors/ResourceManagerActor.java:137-151 | a node configured with one resource owns it ENABLED, with no grants |
| Scenarios.AskPeers | p4/src/cmsc433/p4/actors/ResourceManagerActor.java:180-196 | a request for an unknown name opens a session waiting on the only peer; the only messages sent are the configuration acknowledgement and one query to that peer |
| Scenarios.LocateAndForward | p4/src/cmsc433/p4/actors/ResourceManagerActor.java:566-606 | the owner answers positively; the asker caches it and forwards the original request unchanged; the owner grants it to the client |
| Scenarios.WriterQueuedBehindReader | p4/src/cmsc433/p4/actors/ResourceManagerActor.java:218-279 | with a read held by another client, a nonblocking write is denied RESOURCE_BUSY, and a blocking write is queued without a reply |
| Scenarios.WriterWaitsForReader | p4/src/cmsc433/p4/actors/ResourceManagerActor.java:326-345 | the reader's release empties the list, and the queued write is granted and becomes the only grant |
| Scenarios.ScannerRequest | p4/src/cmsc433/p4/actors/ResourceManagerActor.java:188-196 | with two peers, a request for an unknown name sends two queries and waits for two replies |
| Scenarios.ScannerSession | p4/src/cmsc433/p4/actors/ResourceManagerActor.java:307-322 | a release for the same name joins the buffer behind the request, and nothing is sent |
| Scenarios.NobodyOwnsIt | p4/src/cmsc433/p4/actors/ResourceManagerActor.java:607-638 | the first negative reply sends nothing; the second denies the request as not found, sends nothing for the release, and closes the session |
| Scenarios.UntouchedOwner | p4/src/cmsc433/p4/actors/ResourceManagerActor.java:137-151 | a node configured with one resource has no lock-table entry for it and an empty queue |
| Scenarios.UntouchedRelease | p4/src/cmsc433/p4/actors/ResourceManagerActor.java:326-327 | releasing a local resource that was never requested aborts as written; the model ignores the release and sends nothing |
| Scenarios.TwoWriters | p4/src/cmsc433/p4/actors/ResourceManagerActor.java:205-267 | two writes on two fresh resources are both granted, each as the only grant on its resource |
| Scenarios.TwoQueuedWaiters | p4/src/cmsc433/p4/actors/ResourceManagerActor.java:268-271 | a blocking write behind another client's write, and a blocking read behind another client's write, are queued in arrival order |
| Scenarios.FreedBehindBlockedHead | p4/src/cmsc433/p4/actors/ResourceManagerActor.java:518-523 | a release that frees the second queued request grants nothing while the head is blocked |
| Scenarios.UnblockedHead | p4/src/cmsc433/p4/actors/ResourceManagerActor.java:401-463 | a DISABLE purges the blocked head without a pass, leaving a grantable request at the head of the queue and "db" still without a lock-table entry |
| Scenarios.ReleaseSkipsPass | p4/src/cmsc433/p4/actors/ResourceManagerActor.java:552-555 | on that node, a release of the resource with no grant list sends nothing as written, so client 4 is not granted, while in the model the pass after the ignored release grants it |

## Left out

- Logging: every log event is left out. `ReleaseAccess` and `ReceiveAccessRelease` return `released` to tell an applied release from an ignored one.
- `localUsers`: it is stored (line 158) and never read, so `AddLocalUsers` only acknowledges.
- The actor runtime: `props`, `makeResourceManager`, `tell`, `getSelf` and `getSender`. Sends are appended to `outbox`; actor references are natural numbers compared only for equality.
- Message passing between nodes, delivery order and mailbox concurrency: the model is a single node handling one message at a time. The scenarios pass messages by hand.
- The sender recorded on a forwarded message (`tell(msg, sender)` at lines 303 and 377, versus `getSelf()` elsewhere): an envelope has only a destination. The forwarded message is the original one, so the owner still replies to the requester named inside it.
- Iteration order over the peer set: `Broadcast` sends one query per peer in an order the model leaves open.
- `ArbitrateLocal` stands in for the call at line 519. That call re-runs the whole access handler for a queued request. The invariant shows that a queued request is always local, ENABLED, has no recorded DISABLE, and is compatible when re-run. So that call always takes the grant branch, and the model's decision and effect are the same.
- Configuration acknowledgements carry the original list rather than the original request object.
- AddInitialLocalResources: disjointness of the name tables is promised only when the new names are neither cached nor being discovered. The source does not check this; a name that is both local and cached is then treated as local.
- ReceiveAccessReleaseAsWritten: the model stops at the exception thrown at lines 326-327. How the actor runtime reacts is left out. The node is a top-level actor (line 100), so by default the runtime restarts it, the field initialisers at lines 68-83 run again, and every table, including the queue, starts empty.

## Findings

| source | as written | input that shows it | evidently intended | confidence | as-written member | corrected member |
|---|---|---|---|---|---|---|
| p4/src/cmsc433/p4/actors/ResourceManagerActor.java:326-327 | the release path takes the grant list of a local resource from the map and iterates over it; a resource that has never been requested or disabled has no entry, so the list is null and the handler throws before it changes any field; the exception leaves `onReceive` (declared to throw, line 539) before `grantRequestOnRelease` at line 555, so that message runs no re-evaluation pass; what the node holds afterwards is up to the actor runtime | a node configured with resource "db" receives a release of "db" before any access or management request for it; the pass that is skipped is observable when a DISABLE has just purged the blocked head of the queue: node 0 owns "x", "y" and "db", client 1 writes "x", client 3 writes "y", a blocking write on "x" by client 2 and a blocking read on "y" by client 4 are queued, client 3 releases "y", client 5 disables "x", and then a release of "db": client 4 is not granted as written | a release with no matching grant is ignored, as lines 343-345 do for an existing list, and the pass runs as after any other release, so client 4 is granted | high (not executed) | ResourceManager.ResourceManagerActor.ReceiveAccessReleaseAsWritten, Scenarios.UntouchedRelease, Scenarios.ReleaseSkipsPass | ResourceManager.ResourceManagerActor.ReceiveAccessRelease, ResourceManager.ResourceManagerActor.ReleaseAccess |
