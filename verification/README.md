# Shard ownership, client routing and migration copy of the catalog service

A Dafny 4.11 model of the catalog service's control plane, its client router and its migration copier.
`dafny verify dfyconfig.toml` checks everything.

**The ownership protocol** (`Etcd.dfy`, `Protocol.dfy`). etcd is one value: a revision, leases with the time
before which they cannot expire, member keys, and ownership keys with owner, modRevision (the term) and lease.
Every process is a value too: its cached `owned`/`releasing` view, its keepalive stamp, and its place inside
`reconcileOnce`. One etcd call of one node is one step, so rounds interleave call by call; joins, failed joins,
renewals, expiry, revocation, close and crash are steps as well, and any call may fail without taking effect.
`Run` folds `Step` over a list of actions; the theorems quantify over all such lists.
Fields marked as history (`grants`, `revoked`, `log`, `granted`, `suspect`, `bound`, `done`, `clean`) are written by
steps and never read by the modelled code.

**What is proved of it.** `Safety` holds one invariant of every run, with no assumption about the run.
`Serving` draws the promises from it: the gate, exclusive serving, fencing terms, rebinding. `Boundary` builds,
step by step, runs in which two nodes do serve one shard, one run for each condition of exclusive serving.
`Convergence`, `Failover` and `Orphans` are about placement. `Control` holds the agent in the source's own form:
classes that keep the cached view in their fields and call etcd with arguments of their own, with arbitrary
interference in between. The protocol state is a ghost there, and each call, and each branch that makes none, is
proved to leave the world exactly as the protocol's step does, so the theorems about runs are theorems about that
code. `Rounds` gives the steps of a round as a function of what happens before each of its calls and which of them
succeed, and says what a round achieves when nobody interferes.

**The rest.** `Placement` and `Reconciling` are the pure placement rules; `StripRoot`, `Diffing` and `CopyDiff`
the migration copier; `Routing` the client router, tied back to the ownership history.

Hash functions, clocks, iteration order and the outcome of every remote call are parameters.

Where the documentation and the code differ, the model follows the code. The design document caps claims at a
fair share (README.md:88-101); the code has no cap. It says that owners keep serving while etcd is unavailable
(README.md:130-131); in the code they stop after half the TTL.

Promises that the code does not keep unconditionally, with the exact boundary:

- Exclusive serving can fail once a lease was revoked, as `Close` does, after a rebind that did not succeed, and
  after a renewal recorded more than half a TTL late. `ExclusiveServing` holds in every other case;
  `CloseBreaksExclusion`, `FailedRebindBreaksExclusion` and `LateStampBreaksExclusion` reach the failure;
  `RebindFlagExact` and `WindowExact` are if-and-only-if, and `CloseLeavesServing` holds of every node serving on
  firm ground between rounds.
- Owners can be orphaned when an id registers again while keys still name it. `NoOrphansExact` says over any run
  that this is the only way; `RestartOrphans` reaches it.
- Stripping a key is wrong exactly when the key does not start with root at a segment boundary or an anchor starts
  before the seam: `StripRoundTrip`, `StripRoundTripFails`. What that does to a copy can go unnoticed:
  `WrongCopyGoesUnnoticed`.
- A call is applied at most once exactly when nothing that is retried was applied: `AtMostOnceExact`.

## Model

| member | source | states |
|---|---|---|
| Placement.ShardOf | routing/placement.go:19-21 | the slot is the hash modulo 256 |
| Strings.LessExact | routing/membership.go:103-115 | the order of keys is the dictionary order: the first difference decides, and a proper prefix comes first |
| Placement.Rendezvous | routing/placement.go:25-35 | the scan computes the suggested owner for any members, empty ids included |
| Placement.SuggestedIsFirstBest | routing/placement.go:23-35 | the suggested owner is the first member of highest weight, and "" only for no members |
| Placement.MinimalReshuffle | routing/placement.go:5-7 | for any two sorted member lists and any weights, ties included, a shard's owner changes only if the old owner left or the new one was absent |
| Reconciling.Reconcile | routing/reconcile.go:18-30 | both lists, exactly: increasing, and each shard listed if and only if it is to be claimed or released |
| Reconciling.ReconcilePartition | routing/reconcile.go:3-17 | an unowned shard is on exactly its rendezvous owner's claim list, a misplaced one on exactly its holder's release list, any other on none |
| Reconciling.ColdStartPartition | routing/reconcile.go:9-13 | on an empty map the members' claims cover all 256 shards and are disjoint |
| Etcd.TxnReturnsTerm | routing/ownership.go:21-38 | claim and rebind commit if and only if their comparison holds and the lease lives; the term returned is that of the key written and above every term ever used; otherwise nothing changes |
| Safety.NodeStepKeeps | routing/coordinator.go:95-168 | each call of a round keeps the store's and the node's invariant: gate, cached terms in history, marks before releases, rebind bookkeeping |
| Safety.NodeStepCalm | routing/ownership.go:88-98 | no call of one node removes or changes another node's key |
| Safety.StepKeepsInv | routing/coordinator.go:88-169 | every step of the whole system keeps the invariant |
| Safety.RunKeepsInv | routing/coordinator.go:67-86 | so does every run |
| Serving.GateHolds | routing/coordinator.go:106-168 | in every reachable state a node whose lease lives and that would serve a shard it did not fail to rebind holds that shard's key on its own lease |
| Serving.FreshLeaseLives | routing/membership.go:31-40 | a fresh and timely stamp means the unrevoked lease has not expired |
| Serving.ServingHoldsKey | routing/coordinator.go:189-198 | whoever passes the gate on firm ground holds the key |
| Serving.ExclusiveServing | routing/coordinator.go:39-51 | in every reachable state two different nodes on firm ground never both serve a shard |
| Serving.WindowExact | routing/coordinator.go:45 | freshness never outlives the lease if and only if the stamp was taken within half the TTL of the grant |
| Serving.RebindFlagExact | routing/coordinator.go:138-155 | when no rebind errored, an installed shard is held if and only if its rebind was not rejected, which is the flag the code ignores |
| Serving.CloseLeavesServing | routing/coordinator.go:217-225 | every node that serves on firm ground still passes its gate after closing between rounds, although the shard's key is gone |
| Serving.MarkIsLocal | routing/coordinator.go:207-213 | marking a shard closes the gate for that shard of that node and for no other |
| Serving.WritesRaiseTerm | routing/ownership.go:21-38 | in any step, whatever is written to a shard's key has a term above every term ever used |
| Serving.OneRevisionPerChange | routing/ownership.go:40-47 | every step that changes keys takes exactly one revision; of the others only a member put takes one |
| Serving.LogGrows | routing/ownership.go:40-47 | the history of terms only grows over a run |
| Serving.TermsIncrease | routing/ownership.go:40-47 | over any run a shard's key is later the same key or has a strictly higher term than the shard ever had, and a shard and a term have one owner |
| Serving.FencingTerms | routing/fencing_test.go:29-51 | over any run a cached term is positive, never exceeds the key's term at any later time, equals it only if the key names the same node, and is never cached by another node |
| Serving.CleanRoundBinds | routing/coordinator.go:126-148 | once a round ran without a failed call, every key naming the node rides its lease, so ending any other lease takes none of them |
| Serving.CleanInstallBinds | routing/coordinator.go:126-148 | the round that makes it so |
| Serving.RebindKeepsOwners | routing/ownership.go:68-86 | no step of the rebind loop changes any shard's owner |
| Serving.RebindExact | routing/coordinator.go:138-148 | a step of the rebind loop writes a key if and only if it was loaded as this node's on another lease, is not being released, still names the node and the call goes through; it then rides the node's lease with a higher term |
| Boundary.CloseBreaksExclusion | routing/coordinator.go:215-225 | a run, for any weights and shard, in which a closed node and its successor both serve |
| Boundary.LateStampBreaksExclusion | routing/membership.go:64-69 | a run in which a renewal received late lets two nodes serve one shard |
| Boundary.FailedRebindBreaksExclusion | routing/coordinator.go:145-155 | a run in which ignored rejected rebinds let two nodes serve one shard |
| Boundary.RestartOrphans | routing/membership.go:50-54 | a run, for any shard, in which a restarted node's new lease expires first and leaves the shard with an owner that is no member |
| Orphans.StepKeepsCoupled | routing/membership.go:84-94 | every step keeps each key on the lease its owner is registered under, unless it is a member put for a node that keys name |
| Orphans.StepCoupledExact | routing/membership.go:50-54 | one step keeps keys and registrations together if and only if it is not a registration of a node that keys name |
| Orphans.CoupledExact | routing/membership.go:84-94 | keys and registrations are together if and only if no owner is orphaned and the end of no single lease would orphan one |
| Orphans.NoOrphansExact | routing/membership.go:45-94 | over any run, no shard is ever orphaned or one lease away from it if and only if every registration that went through found no key naming its node |
| Orphans.OneLeaseNoOrphans | routing/membership.go:45-94 | a run in which no id is granted a second lease is such a run, so every owner is a registered member |
| Orphans.ReRegisterExact | routing/membership.go:50-54 | of one registration in a state where keys and registrations are together: revoking its lease next orphans no shard if and only if no key named the node |
| Convergence.StepKeepsRegime | routing/reconcile.go:18-30 | with membership fixed, calls succeeding and rounds in flight fitting the membership, each step moves a shard only from nobody to its rendezvous owner or from a wrong owner to nobody |
| Convergence.RunKeepsRegime | routing/reconcile.go:18-30 | the measure 2 per misplaced and 1 per unowned shard never rises over a run |
| Convergence.RoundsSettle | routing/coordinator.go:67-86 | however stale the rounds in flight are, once each has ended, what is in flight fits the membership |
| Convergence.FirstRoundsShed | routing/coordinator.go:111-117 | once every member completes a round, in any interleaving, no shard is at a wrong owner |
| Convergence.RoundsGather | routing/coordinator.go:106-110 | from there, one more round of every member places every shard |
| Convergence.Converges | routing/coordinator_test.go:53-71 | after two such rounds the measure is 0, every shard is at its rendezvous owner on that owner's current lease, and every node's lists are empty |
| Convergence.ConvergesFromAnywhere | routing/coordinator.go:67-86 | from any state in which the membership is in force, once rounds in flight have ended and every member completed two more, the system has converged |
| Failover.FailoverLocality | routing/placement.go:5-7 | from a converged state, whatever rounds are in flight, after one member's lease expires and each survivor completes a round, the system has converged over the survivors and each shard a survivor owned keeps owner, term and lease |
| Control.SortedKeys | routing/membership.go:103-115 | the members, each once, in key order |
| Control.FillOwnershipMap | routing/ownership.go:49-66 | for any row order, slot s holds the key of shard s or the zero value |
| Control.FillShardMap | routing/ownership.go:112-128 | likewise for owners alone |
| Control.ForeignOutside | routing/coordinator.go:14-19 | what other processes and the server do depends on nothing in this process's memory |
| Rounds.RoundAlone | routing/coordinator.go:88-169 | from any reachable state, a round with no failure and no interference makes each shard exactly what it should be: claimed, given up, moved to this lease or untouched; and the view is exactly the node's keys, none marked |
| Rounds.RoundQuiet | routing/coordinator.go:67-86 | a round whose calls all succeed and whose interference is quiet is a quiet run, so the convergence theorems apply to it |
| Control.Coordinator.constructor | routing/coordinator.go:42-51 | a new agent mirrors a process that has just joined |
| Control.Coordinator.ApplyClaims | routing/coordinator.go:106-110 | claiming the listed shards in order, each under this node's lease: the history grows by exactly the claim steps, each with the outcome of its own call |
| Control.Coordinator.ClaimOne | routing/coordinator.go:107-109 | the claim transaction on the shard given is the protocol's next claim with the outcome of the call |
| Control.Coordinator.ApplyReleases | routing/coordinator.go:111-117 | the history grows by exactly a mark and a release step for each shard, each release with the outcome of its own call; nothing else is marked |
| Control.Coordinator.ReleaseOne | routing/coordinator.go:112-116 | marking and then the release transaction on the shard given are the protocol's next two steps |
| Control.Coordinator.RebindOld | routing/coordinator.go:133-148 | the history grows by exactly the rebind steps over the 256 shards, each with the outcome of its own call |
| Control.Coordinator.RebindOne | routing/coordinator.go:139-147 | the guard makes a rebind transaction for exactly the shards for which the protocol does, under this node's lease, and none for the others |
| Control.Coordinator.InstallView | routing/coordinator.go:150-168 | the new view holds exactly the loaded keys of this node with their terms, and marks exactly the releases still owned |
| Control.Coordinator.ReconcileOnce | routing/coordinator.go:88-169 | the history grows by exactly the steps of the plan its reads gave; it completes if and only if its three reads succeed, and then shows the ownership map of the third; an aborted round leaves the owned view alone and marks exactly its releases; alone, it claims what is unowned and its own, gives up what is not its own, and shows exactly its keys |
| Control.Coordinator.IsServable | routing/coordinator.go:189-198 | true if and only if the shard is owned, not marked, and twice the time since the last renewal is less than the TTL; which is the protocol's gate |
| Control.ServesUntilStale | routing/coordinator.go:189-198 | while a node takes no step of its own it serves exactly the shards cached and not marked, until half its TTL has passed since its last renewal |
| Control.RoundOpensGate | routing/coordinator.go:150-168 | after a completed round it serves exactly the keys loaded as its own and not on its release list, until then |
| Control.Coordinator.OwnerTerm | routing/coordinator.go:200-205 | the cached term, 0 if and only if not owned; a term from the shard's history under this node |
| Control.Coordinator.MarkReleasing | routing/coordinator.go:207-213 | adds one mark and changes nothing else |
| Control.Coordinator.RouteMap | routing/coordinator.go:252-274 | it succeeds if and only if both reads do; the members are those of the store at the first read, the maps exactly the keys at the second, owner and term together, each in the history with a positive term |
| Control.Membership.constructor | routing/membership.go:63-64 | the registration of a process that has just started is stamped with the current time, neither closing nor lost |
| Control.Membership.Fresh | routing/membership.go:34-40 | true if and only if some renewal was recorded and less than the window has passed since; the protocol's test |
| Control.Membership.OnKeepAlive | routing/membership.go:66-69 | a received renewal stamps the current time |
| Control.Membership.OnChannelClosed | routing/membership.go:70-75 | reported as a loss unless closing |
| Control.Membership.Close | routing/membership.go:88-94 | if the revocation succeeds no key and no member rides the lease |
| Control.Register | routing/membership.go:50-54 | the member put succeeds if and only if the call does and the lease still lives |
| Control.GiveBack | routing/membership.go:52-61 | after a failed join no process is left, and if the revocation succeeded the lease is dead and nothing rides it |
| Control.JoinMembership | routing/membership.go:44-78 | it succeeds if and only if its three calls do and the lease is alive when the member key is put, so always when nobody interferes; success gives a fresh registration that owns nothing and is listed while its lease lives; failure leaves no process, and after a successful revocation the lease is dead and nothing rides it |
| StripRoot.Index | migration/copydiff.go:91 | the earliest occurrence, or -1 if and only if there is none |
| StripRoot.StripRootPath | migration/copydiff.go:85-107 | the suffix at the earliest anchor, else the key if it starts with root, else an error; the same as trying every position |
| StripRoot.StripRoundTrip | migration/copydiff.go:74-84 | for any key: it comes back from its full key if and only if it starts with root at a segment boundary and no anchor starts before the seam (anywhere in the key, for an empty rootPath) |
| StripRoot.StripRoundTripFails | migration/copydiff.go:83-84 | the three ways it fails, on concrete keys |
| CopyDiff.ExactWhen | migration/copydiff.go:81-84 | stripping is exact for a load if and only if every key loaded meets that condition |
| Diffing.DiffMaps | migration/copydiff.go:178-198 | for every iteration order, the strictly sorted list with exactly the right entry for each differing key; empty if and only if the maps are equal |
| Diffing.DiffUnique | migration/copydiff.go:196 | there is only one such list |
| Diffing.DiffSwaps | migration/copydiff.go:180-198 | swapping the maps only swaps the two missing reasons |
| CopyDiff.LoadRoot | migration/copydiff.go:50-72 | what stripping makes of the keys under root, exactly the logical keys when stripping is exact; it fails if and only if the load does or some key has no root |
| CopyDiff.CopyRoot | migration/copydiff.go:118-140 | dst is the old data with exactly the transactions saved laid over it, each of 1 to 64 keys, which are as many distinct keys of the root as they hold together; on success all of them in ceil(n/64) transactions; when a save fails the count is the keys saved and all that were left, or 63 if more were |
| CopyDiff.Flush | migration/copydiff.go:119-128 | an empty batch is not sent; any other is one transaction, or none if it fails |
| CopyDiff.CopyPrefixes | migration/copydiff.go:109-145 | on every exit dst is the old data with exactly the transactions saved laid over it, and the count is the keys saved plus those batched in the root that failed; it stops exactly where a load or a save fails or a key has no root; success lays what each load gave over dst in sum of ceil(n/64) transactions; with exact stripping that is src's keys under the roots, and failure leaves dst in between |
| CopyDiff.LoadLogical | migration/copydiff.go:161-176 | it succeeds if and only if every load does and every key has its root; what each load gave, later roots over earlier ones; with exact stripping all keys under any of the roots |
| CopyDiff.DiffPrefixes | migration/copydiff.go:147-159 | it succeeds if and only if both loads do; the report on what they gave; with exact stripping, on the keys under the roots |
| CopyDiff.CopyThenVerify | migration/copydiff.go:147-159 | after a successful copy the report is exactly the keys dst already had under the roots and src lacks |
| CopyDiff.CopyAndVerify | migration/copydiff.go:109-159 | with exact stripping: both succeed when no call fails, and the report is exactly the keys dst already had under the roots and src lacks |
| CopyDiff.WrongCopyGoesUnnoticed | migration/copydiff.go:78-84 | for concrete stores, without exact stripping: the only possible copy lacks the key, and the report is empty |
| CopyDiff.RerunReachesSame | migration/copydiff.go:109-145 | copying again after a failure reaches the same contents |
| Routing.Router.constructor | client/router.go:38-46 | an empty router tracks its pool |
| Routing.Router.Close | client/router.go:55-63 | empties the pool and keeps the routes |
| Routing.Router.EvictStaleConns | client/router.go:65-82 | keeps exactly the pooled addresses that are owners or bootstrap nodes |
| Routing.Router.Conn | client/router.go:84-96 | a connection to the address asked for, the pooled one or a new one if it can be dialled, which is then pooled |
| Routing.Router.Candidates | client/router.go:100-105 | the bootstrap nodes in order, then one address per map entry in any order |
| Routing.Router.Refresh | client/router.go:98-142 | the first node reached that answers without transport or status error replaces owner and term maps together; requests go to exactly the nodes reached up to it; if none answers the maps stay and the error is the last one's; the pool is exact in both cases |
| Routing.Router.RouteFor | client/router.go:151-161 | owner and term of one route map |
| Routing.Router.Try | client/router.go:192-222 | one attempt asks for the route map if and only if no owner is known, calls if and only if an owner is known then and is pooled or can be dialled, over a connection to that owner with its term, and asks again if and only if it could not call a known owner or the call is to be retried |
| Routing.RetryCases | client/router.go:214-243 | what is retried, by transport error and status: a retriable rejection in both modes, also in a status; an unavailable or timed-out transport only for idempotent calls; a success or any other error never |
| Routing.Router.Do | client/router.go:163-225 | a chain of at most 4 such attempts, each with what the one before left; it ends if and only if 4 are made, the caller cancels or an outcome is final; the invocations made are exactly those of the chain; the error is the last attempt's or the caller's, and nil if and only if the last call has neither transport nor status error |
| Routing.FailoverIsTransparent | client/router.go:22-24 | in any such chain: after a retried call, if the first node reached that answers, bootstrap or owner, knows an owner that is pooled or can be dialled and answers, the next attempt is the last, calls that owner with its term, and succeeds |
| Routing.KnownOwnerIsCalled | client/router.go:192-210 | an attempt calls if and only if an owner is cached, or learnt from the first answer, and is pooled or can be dialled; the call goes to that owner, whose connection stays pooled unless the call is retried |
| Routing.RunKeepsSound | client/router.go:185-225 | if the map in hand and all answers hold only pairs from the ownership history, so do the map left and the address and term of every call |
| Routing.CallsShaped | client/router.go:214-223 | the invocations of a chain: at most 4, every one but the last retried for cause |
| Routing.AtMostOnce | client/router.go:175-183 | of any list of invocations of that shape: if nothing retried was applied, the call is applied at most once, and exactly once if the last has neither transport nor status error |
| Routing.RunAppliesAtMostOnce | client/router.go:175-225 | the same of every run of `Do`, whatever the network does |
| Routing.AtMostOnceExact | client/router.go:214-222 | that condition on the server is necessary as well |
| Routing.AmbiguousRetryAppliesTwice | client/router.go:163-170 | retrying an ambiguous failure can apply a call twice |
| Routing.PoolBound | client/router.go:65-68 | a tracked pool holds at most one connection per bootstrap node and shard |
| Routing.ServedRoutesAreSound | routing/coordinator.go:252-274 | a route map served at any point of a run is sound for the history of every later point |
| Routing.CalledNodeHoldsTerm | client/router.go:151-161 | the called address is the only node that can cache the stamped term for the shard |

## Left out

- The hash functions: weights and the namespace hash are arbitrary functions, so balance is not addressed.
- The text of etcd keys: ownership keys are indexed by shard number, so prefixes, Itoa and Atoi are not modelled.
- etcd requests that take effect after their caller gave up: a call takes effect before it returns or not at all.
- Two processes with one id at the same time: the protocol admits one, joining or running.
- Control.Coordinator.ReconcileOnce: renewals are granted but not received while a round of the class runs; the state machine interleaves receipts freely.
- The keepalive loss channel stopping the reconcile loop: a process may simply take no further step.
- Draining of in-flight requests, shadow caches and the service-side term check: there is no code for them here.
- client/routing_client.go: its stubs are identical wrappers over `Do`; only the error they pass on is modelled.
- CopyDiff.CopyPrefixes: source and destination are two different stores; copying a store onto itself is not modelled.
- Diffing.DiffMaps: the sort builds a new sequence instead of sorting in place.
- Concurrent use of one Router: its methods run one at a time.
- TLS, dialing, logging and nsmeta: they carry no logic of their own.
