# Swarm node, verified model

Dafny models of the stateful core of the sbx swarm node, with proofs of what that core is for: a
revocation reaches every node, admission never overcommits, a placement creates at most one sandbox,
a file arrives whole or not at all. Verify with `dafny verify dfyconfig.toml`.

The code's locks, goroutines and network exchanges are modelled as steps of state machines; the code's
objects (`Cluster`, `Capacity`, `Manager`, the dedup cache, the operation manager, the event bus, the
remote file system) are classes whose methods are proved against the same functions the state machines
step with. Resources are reals, clocks are integers, hashes are functions; everything that comes from
outside (clock readings, ids, failures, lost messages) is a parameter or a nondeterministic choice.

| file | what it models |
|---|---|
| `Common.dfy`, `Sorting.dfy` | shared types; sorting by a comparator, sorted key listings |
| `Membership.dfy` | one node's denylist, swarm identity, and the merge of a peer's state |
| `Flooding.dfy` | the fleet: revocation as a flooding protocol |
| `Capacity.dfy`, `SandboxManager.dfy` | the capacity ledger; records, lifecycle, reconcile, idle listing |
| `Admission.dfy`, `AdmissionFailures.dfy` | concurrent creates, commits, starts, stops, deletes and reconciles, interleaved; runs that go wrong |
| `ImageRef.dfy`, `Scheduler.dfy` | image references and their console inverse; filter and rank |
| `Dedup.dfy`, `Placement.dfy` | the target's request cache; one placement with lost requests and replies |
| `Operations.dfy`, `OperationRuns.dfy` | operations, idempotency keys, crash recovery; several runs of one operation |
| `KeyedCreate.dfy`, `KeyedCreateFailures.dfy` | keyed creates, their handlers step by step; runs that go wrong |
| `Base64.dfy`, `Transfer.dfy` | section 4 of RFC 4648; chunked upload and download over a lossy exec channel |
| `GerritThreads.dfy` | reply-thread grouping |
| `Events.dfy` | replay ring, bounded queues, what a watcher receives |
| `AgentRun.dfy` | the agent poll loop against the idle reaper |

## Hypotheses, and what fails without them

- Flooding: a fixed membership, one protocol version, no restarts while a revocation spreads (a restart
  forgets the exchanges still to be started), exchanges that are delivered eventually, one merge at a
  time per node. For merges that overlap, `OverlappingMergesKeepIdentityIff` says exactly when a swarm id
  stays; `OverlappingMergesChangeIdentity` is a run in which it does not.
- Admission: the code holds no lock between a listing and the base update that uses its sum, between the
  two listings of a reconcile (the backend's comes first), or between the backend call of a start or
  stop and its mark. `Orderly` says what must not happen in each gap, and each part is exact:
  a base update is backed (`CommitIff`, `SetBaseIff`; in the plain case no create saved since the listing
  has dropped its reservation, `BackedIffNoneDropped`), no sandbox created since the backend listing is
  listed with its record while alive (`ListRecordsIff`), and no record is marked that was swept since the
  call (`MarkStatusIff`). Over whole runs that respect the last two, the promises stay covered at every
  moment exactly when every base update is backed (`CoveredIffOrderly`). `StaleCommitOvercommits`,
  `StaleBackendListRevives` and `InterleavedStartRevives` are runs of the code outside it: the first
  overcommits, the second loses a live sandbox, revives it and overcommits, the third revives a lost one.
- Placement: a target handles the two sends of one request one after the other, and the requests in between
  are other ones. The result is truthful exactly outside `DoubleFault`; a cordon that does not flip and
  a retained cache entry exclude it.
- Operations: a run begins only on an operation that is neither finished nor running (`LifeCycleIffTimely`).
  Agent runs and publishes run whatever their key is mapped to; `RepeatedKeyRunsTwice` turns done into error.
- Keyed creates: asked of the creates and handlers of the one key only; other keys and unkeyed creates may be
  placed anywhere and rewritten at will. The key's creates are placed on this node (the lookup reads only
  this node's records), no other request writes a foreign sandbox into a create that has or may get its
  own, and no mapping to such a create is dropped. From every state within the invariant each part is
  necessary (`HarmlessIffSafe`, `HarmlessRunIffSafe`); `RemotePlacementDuplicates`, `SharedKeyDuplicates` and
  `OverlappingRetriesFork` are runs from a fresh node. That a retry gets the original operation asks, again
  of that key only, that other requests leave its creates unchanged and handlers clear what they found gone.
- Transfer: the announced size is the source's length, and there is one upload per destination at a time (the
  staging name depends on the destination alone; `InterleavedUploadsMix` is a run of two that leaves neither
  source). Every chunk of an append may lose any tail, on a reported success or failure, and every block
  read may be cut short anywhere.
- Store writes succeed, except where a parameter says otherwise.

Where the code and its own words disagree the model follows the code. `effectiveSpec` promises that no
sandbox goes untracked; a configured default below one core is cut to zero, and one beyond 32 bits becomes
what the platform's conversion makes of it (`EffectiveSpecTracksAll` gives the exact condition). The comment
on `CommitBase` promises that a record is never dropped from the base; `StaleCommitOvercommits` drops one. The
comment on `AgentRun` promises that a running agent is never idle-stopped; that holds exactly under the pace
bound of `NeverReapedMidRun`. A swarm file with an empty id leaves a node that never adopts one
(`EmptyFileNeverAdopts`).

## Model

| member | source | states |
|---|---|---|
| Sorting.SortSlice | internal/scheduler/scheduler.go:64-92 | for any comparator the result is a sorted permutation |
| Sorting.SortedUnique | internal/scheduler/scheduler.go:64-92 | a sorted arrangement is unique once the comparator separates the elements |
| Sorting.StrLessMeans | internal/membership/revocation.go:112-119 | the order of the keys: the strings agree up to a place where the first one ends or has the smaller character |
| Sorting.SortedKeys | internal/membership/revocation.go:112-119 | the keys of a set, each once, strictly ascending |
| Sorting.ListingUnique | internal/membership/revocation.go:112-119 | a set has only one such listing, so two nodes with equal denylists advertise equal lists |
| Membership.Cluster.constructor | internal/membership/cluster.go:43-110 | a new process starts with the stored denylist, also in its advertised list |
| Membership.Cluster.AddRevoked | internal/membership/revocation.go:75-95 | exactly the new non-empty ids are added to memory, store and advertised list; true if and only if there is one, and then the state version moves on by one |
| Membership.Cluster.Revoke | internal/membership/revocation.go:19-40 | the empty id and the node itself are refused; otherwise the id is added, and fanned out only if new |
| Membership.Cluster.MergeRemoteState | internal/membership/cluster.go:276-344 | the whole new state: undecodable, wrong protocol or another swarm changes nothing; else union, route, adoption when pending, written to the swarm file; fan-out if and only if the denylist grew |
| Membership.MergedIds | internal/membership/cluster.go:291-324 | a merge adds the peer's ids exactly when the peer's state is accepted, and keeps memory, store and list equal |
| Membership.MergeRoutes | internal/membership/cluster.go:283-327 | a peer of another protocol or swarm changes nothing; any other one is remembered and routed to, an empty key leaves the pinned one, no other entry changes, and only a pending node changes its identity or file |
| Membership.RevocationDurable | internal/membership/revocation.go:75-110 | over any life with restarts: memory, store and advertised list denote one set, which is the initial one plus exactly what revocations and accepted merges introduced |
| Membership.SwarmIdentityStable | internal/membership/cluster.go:291-343 | over any run of merges, failed persists included, a non-empty swarm id never changes and is the only one advertised |
| Membership.PersistedForever | internal/membership/identity.go:37-61 | a swarm id held by the file stays in file and memory over every life: any merges, revocations, failed writes and restarts with any seeds |
| Membership.AdoptionLasts | internal/membership/cluster.go:326-343 | a pending node that adopts and persists a peer's swarm is a member of it in rejoin mode ever after, restarts included; one whose write failed is pending again after a restart with seeds |
| Membership.FoundingLasts | internal/membership/identity.go:51-55 | a node started without file and seeds keeps the swarm id it minted over every life |
| Membership.BrokenFileStays | internal/membership/identity.go:38-49 | an unreadable or corrupt file stops the start and is not written over |
| Membership.MergeKeepsIdIff | internal/membership/cluster.go:291-343 | a merge with outdated readings keeps a non-empty swarm id if and only if it did not read "pending" and an id compatible with a peer whose id is another one by now |
| Membership.OverlappingMergesKeepIdentityIff | internal/membership/cluster.go:276-344 | over any run of merges, each with readings as old as it likes, a non-empty swarm id never changes if and only if none of them is late in that sense |
| Membership.OverlappingMergesChangeIdentity | internal/membership/cluster.go:291-343 | two merges that both read "pending" before either adopts are such a run and leave the second swarm id |
| Membership.EmptyFileNeverAdopts | internal/membership/identity.go:37-61 | a file with an empty id leaves the node without an id under every sequence of merges |
| Flooding.DeliveryUnites | internal/membership/cluster.go:291-343 | inside one swarm a delivered snapshot passes both gates and the result is the union |
| Flooding.GrowthCovered | internal/membership/revocation.go:45-54 | a grown denylist fanned out to all others keeps every pair covered: included, owed or in flight |
| Flooding.StepKeepsInv | internal/membership/revocation.go:19-54 | every revocation, exchange start and delivery keeps the covering invariant and the swarm id within {x, none} |
| Flooding.FloodingConverges | internal/membership/cluster.go:309-324 | in every run, once nothing is owed or in flight all nodes hold the same denylist: all known before plus all revoked since |
| Flooding.FloodingTerminates | internal/membership/cluster.go:309-324 | without new revocations no schedule of exchanges is longer than the initial work measure |
| Flooding.NeverStuck | internal/membership/revocation.go:45-54 | a fleet that is not quiet can always take an exchange step |
| Resources.TotalOfEach | internal/sandbox/capacity.go:28-36 | the total of the reservations holds the sum of each resource |
| CapacityTracker.Capacity.Snapshot | internal/sandbox/capacity.go:100-104 | per resource the base plus the sum of all reservations |
| CapacityTracker.Capacity.TryReserve | internal/sandbox/capacity.go:42-53 | granted if and only if for cpu, memory and disk each the limit is zero or base, all reservations and the request together stay within it; a refusal changes nothing |
| CapacityTracker.Capacity.Commit | internal/sandbox/capacity.go:57-68 | moves the reservation into the base; an unknown id changes nothing |
| CapacityTracker.Capacity.CommitBase | internal/sandbox/capacity.go:75-80 | the base becomes the given one and that reservation alone is dropped |
| CapacityTracker.LedgerConserves | internal/sandbox/capacity.go:28-68 | reserving adds its cost, committing keeps the total, releasing a fresh reservation undoes it |
| SandboxManager.EffectiveSpecTracksAll | internal/apiserver/sandboxservice.go:82-106 | exactly when a filled spec costs less than zero, and exactly when it costs nothing in some resource: a core default below one or beyond 32 bits, with the cores left open |
| SandboxManager.EffectiveSpecFills | internal/apiserver/sandboxservice.go:82-106 | sizes asked for are kept, open ones take the configured default or else one core, 1 GiB and 1 GB, and filling a full spec changes nothing |
| SandboxManager.CostSumIsLiveTotal | internal/sandbox/manager.go:65-76 | the sum over a listing is the total of the non-lost records, in whatever order they are listed |
| SandboxManager.Manager.List | internal/sandbox/manager.go:210-221 | every record exactly once |
| SandboxManager.Manager.CostSum | internal/sandbox/manager.go:65-76 | the loop's sum over the listed records, lost ones excluded |
| SandboxManager.Manager.Create | internal/sandbox/manager.go:159-191 | a backend failure leaves nothing; a store failure leaves a sandbox without a record; else exactly one new record under the new id |
| SandboxManager.Manager.AdmitAndCreate | internal/sandbox/manager.go:81-102 | refused without room, backend untouched; on failure the ledger is as before; on success the base is the live total, or the old one plus the cost when listing fails |
| SandboxManager.Manager.SetStatus | internal/sandbox/manager.go:223-236 | changes only a record whose sandbox the backend knows, and only when the backend call succeeds |
| SandboxManager.Manager.BumpActivity | internal/sandbox/manager.go:240-242 | moves only that record's activity time; false if and only if it is missing |
| SandboxManager.Manager.Start | internal/sandbox/manager.go:245-250 | a sandbox the backend starts becomes running and active now; otherwise nothing changes |
| SandboxManager.Manager.Delete | internal/sandbox/manager.go:256-290 | removes record and sandbox and nothing else, also without a record; a failed removal changes nothing |
| SandboxManager.Manager.MarkLost | internal/sandbox/manager.go:381-409 | store and list agree, with exactly the records whose sandbox is missing marked lost |
| SandboxManager.Manager.Reconcile | internal/sandbox/manager.go:381-412 | exactly the records whose sandbox the backend lacks become lost, and the base becomes the live total |
| SandboxManager.Manager.IdleRunning | internal/sandbox/manager.go:314-332 | lists exactly the running, non-exempt records more than the timeout idle, each once; none without a timeout |
| Admission.StepKeepsInv | internal/sandbox/manager.go:81-102 | every orderly step of a create, commit, start, stop, delete or reconcile keeps the invariant: ledger, records, backend, open listings and budget fit together |
| Admission.SumsKept | internal/sandbox/manager.go:91-98 | through every step that marks no swept record, every open listing plus what was saved since, minus what was deleted or lost since, is the live total |
| Admission.RebaseIff | internal/sandbox/capacity.go:75-90 | installing a listed sum covers all that is promised if and only if the creates saved since and already dropped cost no more than those counted twice and the records gone together |
| Admission.CommitIff | internal/sandbox/manager.go:91-100 | a commit with its listed sum keeps the promises covered if and only if it is backed |
| Admission.SetBaseIff | internal/sandbox/manager.go:409-410 | the same for the base update of a reconcile, with its record snapshot |
| Admission.BackedIffNoneDropped | internal/sandbox/capacity.go:70-80 | with no reservation counted twice and no record gone, backed means that no create saved since the listing has dropped its reservation |
| Admission.NoneDroppedIsBacked | internal/sandbox/capacity.go:70-80 | a listing whose creates saved since all hold their reservation is backed, whatever else is open |
| Admission.NeverOvercommits | internal/sandbox/manager.go:65-102 | in every orderly interleaving live records plus open promises stay within what the tracker counts and within every limit |
| Admission.LimitsHold | internal/sandbox/capacity.go:38-53 | the same in what requests ask for: over live records and open requests the cores, the memory in KB and the disk in GB each stay within their limit unless that is zero |
| Admission.CoveredIffOrderly | internal/sandbox/manager.go:65-102 | among heedful runs, those that keep every promise covered at every moment are exactly those in which every base update is backed |
| Admission.ListRecordsIff | internal/sandbox/manager.go:381-393 | a reconcile finds nothing alive to mark if and only if no live record belongs to a sandbox created since its backend listing |
| Admission.MarkStatusIff | internal/sandbox/manager.go:223-236 | the mark of a start or stop leaves every lost record lost if and only if its record was not swept since the backend call |
| Admission.LostIsTerminal | internal/sandbox/manager.go:223-290 | over any orderly run, reconcile and starts split at their gaps, a lost or deleted sandbox never comes back and its cost never enters the live total again (a sum listed before the loss may still pass through the base) |
| Admission.LostAndDeletedAreDead | internal/sandbox/manager.go:381-412 | in every state reached by an orderly run a lost record's sandbox is absent for good, and so is a dropped one's |
| AdmissionFailures.StaleCommitOvercommits | internal/sandbox/manager.go:91-98 | a run from an empty node in which a commit applies a sum listed before another create was saved and committed: a live record is forgotten and a third sandbox admitted past the limit |
| AdmissionFailures.StaleBackendListRevives | internal/sandbox/manager.go:381-412 | a run in which a create completes between the two listings of a reconcile: its record is marked lost while the sandbox is alive, one start then makes it running again, and the live total exceeds the base |
| AdmissionFailures.InterleavedStartRevives | internal/sandbox/manager.go:223-236 | from every reconciled node with a running sandbox, a run in which a start overtaken by a sweep brings a lost record back |
| ImageRef.RegistryRule | internal/imageref/imageref.go:15-22 | a reference is pullable if and only if what precedes its first slash is localhost or has a dot or a colon |
| ImageRef.CanonicalAdds | internal/imageref/imageref.go:37-54 | for every reference exactly what is added: the hub, with its own namespace when there is no path, and the default tag when the last segment has none |
| ImageRef.CanonicalNormalForm | internal/imageref/imageref.go:37-54 | for every string: registry-qualified, tagged in the last segment, and a fixed point |
| ImageRef.RequestRoundTrip | web/app/components/ProvisionModal.ts:35-39 | for every unqualified reference the console's name means the same image again if and only if it is not library/a/b |
| ImageRef.RequestStaysLocal | web/app/components/ProvisionModal.ts:35-39 | the console's name is pullable if and only if a registry host follows library/ |
| Scheduler.BeforeComparator | internal/scheduler/scheduler.go:64-92 | the ranking is a comparator for every request and every hash |
| Scheduler.Schedule | internal/scheduler/scheduler.go:54-98 | the ids of exactly the eligible candidates, best first; an error if and only if none fits |
| Scheduler.ScheduledMeetsConstraints | internal/scheduler/scheduler.go:103-145 | every scheduled node meets each constraint of the request, and every candidate left out fails one |
| Scheduler.RankingMeans | internal/scheduler/scheduler.go:64-75 | of two scheduled nodes the earlier one has no more sandboxes under spread, no higher actual load under least-actual-load, is at least as full in its fullest resource under bin-pack and at most as full otherwise, an unknown limit counting as full |
| Scheduler.TiesMean | internal/scheduler/scheduler.go:76-91 | on equal scores a holder of the template comes first, then the entry node, then the smaller hash |
| Scheduler.ScheduleCanonical | internal/scheduler/scheduler.go:54-98 | with distinct ids and hashes every permutation of the input gives the same schedule |
| Scheduler.OthersKeepTheirOrder | internal/scheduler/scheduler.go:64-92 | the schedule without a candidate is the schedule with it, minus that candidate |
| Scheduler.TemplateGoesToHolders | internal/scheduler/scheduler.go:103-118 | requesting a saved template by its console name schedules only nodes that advertise that image |
| Dedup.DedupCache.Get | internal/apiserver/provision.go:33-45 | a hit only within the lifetime; an expired entry is dropped, nothing else changes |
| Dedup.DedupCache.Put | internal/apiserver/provision.go:47-68 | the entry is written, expired ones are gone, and an unexpired one is dropped only if the cache was full of them: one alone, an oldest |
| Dedup.CacheRefinesHistory | internal/apiserver/provision.go:33-68 | over any history the cache never exceeds its bound and everything held is the last value put for its key |
| Dedup.AnsweredWithinLifetime | internal/apiserver/provision.go:33-45 | over any history an answer is the last value put for that request, put within the lifetime |
| Dedup.EntrySurvives | internal/apiserver/provision.go:47-68 | an entry survives any max-1 later puts and any lookups within its lifetime |
| Dedup.EntryEvicted | internal/apiserver/provision.go:47-68 | the bound is tight: from any cache within its bound whose newest entry it is, the entry is present after n crowding puts if and only if n < max |
| Placement.Target.Provision | internal/apiserver/provision.go:88-125 | a cordoned node declines, a cached request returns the old id and creates nothing, an accepted one is created and cached |
| Placement.CallCleanIff | internal/node/node.go:926-932 | for every pattern of lost requests and replies the reply tells the truth about the records if and only if outside the double-fault window |
| Placement.CallMeans | internal/node/node.go:926-932 | a call whose exchange is not lost ends as the target's admission does; a lost request is made good by the second send, a lost reply by the cache; without a request id a loss is an error |
| Placement.CallProvisionWithRetry | internal/node/node.go:926-932 | one retry after an error, only with a request id; records and reply are those of the two exchanges; the reply is truthful if and only if outside the double-fault window, which benign circumstances exclude; under these an accepted request whose reply was lost returns its sandbox and creates no other |
| Placement.Attempt | internal/node/node.go:936-971 | a local attempt ends as the node's own admission does, an unreachable peer is a NACK, any other one ends as its call; placed means exactly that record, a NACK none, a failure at most one, if and only if the attempt is not a remote one in the double-fault window |
| Placement.TruthfulIff | internal/coordinator/coordinator.go:35-50 | over the attempts made in turn, the last result is honest and no other candidate has a record if and only if none of the attempts made met the double-fault window |
| Placement.FirstIsServed | internal/coordinator/coordinator.go:40-49 | the first candidate that does not decline decides: if it takes the request, it alone has the sandbox and its id is returned; if all decline nobody has one |
| Placement.Provision | internal/coordinator/coordinator.go:35-50 | the sandbox goes to the first candidate that does not decline; at most one new record in the whole swarm, at the node tried last; a returned id names it; when all decline there is none: if and only if no attempt made met the double-fault window, which a benign one does not |
| Operations.OpsManager.Start | internal/ops/ops.go:79-104 | a mapped key returns its operation unchanged; else a pending one is stored and mapped |
| Operations.OpsManager.ClearIdempotency | internal/ops/ops.go:111-117 | drops that key's mapping and nothing else |
| Operations.OpsManager.BeginRun | internal/ops/ops.go:121-127 | stores the operation as running and keeps that copy; an unknown id changes nothing |
| Operations.OpsManager.FinishRun | internal/ops/ops.go:128-143 | stores the copy as done with the sandbox, or as an error with the message |
| Operations.OpsManager.RecoverInterrupted | internal/ops/ops.go:154-181 | exactly the unfinished operations become errors, and their number is returned |
| OperationRuns.OperationLifeCycle | internal/ops/ops.go:79-181 | with several runs per operation possible: over any run whose goroutines begin in time, every operation moves along pending, running, done or error, finished ones never change, mappings lead to operations, and a restart leaves none unfinished |
| OperationRuns.LifeCycleIffTimely | internal/ops/ops.go:121-143 | a run's beginning is safe in every continuation if and only if its operation is neither finished nor running |
| OperationRuns.RepeatedKeyRunsTwice | internal/apiserver/sandboxservice.go:546-558 | from every sound state two agent runs with one key run the same operation, which goes from done to error |
| KeyedCreate.AtMostOneLivePerKey | internal/apiserver/sandboxservice.go:237-293 | over any run of handler steps, other requests, completions, deletes, losses and crashes that is safe for a key, at most one live sandbox of that key, whatever other keys and unkeyed creates do |
| KeyedCreateFailures.HarmlessIffSafe | internal/apiserver/sandboxservice.go:237-293 | from every state within the invariant, a step leaves the key with at most one live sandbox in every undisturbed continuation if and only if it is safe: no remote placement of its creates, no foreign sandbox written into one that has or may get its own, no mapping to such a one dropped |
| KeyedCreateFailures.HarmlessRunIffSafe | internal/apiserver/sandboxservice.go:237-293 | the same over whole runs: harmless at every state if and only if every step is safe |
| KeyedCreate.RetryReturnsOriginal | internal/apiserver/sandboxservice.go:243-262 | until its sandbox is gone the original operation is what every retry of the key gets, whatever other keys do, and the retry's handler changes nothing |
| KeyedCreate.StaysGone | internal/apiserver/sandboxservice.go:284-293 | a create of the key whose sandbox is gone stays so, whatever other keys do |
| KeyedCreate.RetryAfterGone | internal/apiserver/sandboxservice.go:243-262 | then an undisturbed retry gets exactly one fresh operation, mapped and scheduled, as the handler does as a whole |
| KeyedCreate.RetryAfterLoss | internal/apiserver/sandboxservice.go:243-293 | a finished create whose sandbox is then deleted or marked lost: an undisturbed retry of its key starts one fresh operation, answers with it and maps the key to it |
| KeyedCreateFailures.RemotePlacementDuplicates | internal/apiserver/sandboxservice.go:284-293 | a run from a fresh node: a sandbox on another node is not found, and a retry of its key leaves two live ones |
| KeyedCreateFailures.SharedKeyDuplicates | internal/apiserver/sandboxservice.go:546-558 | a run from a fresh node: an agent run on a second sandbox with the first one's key rewrites the first create's operation; the second sandbox deleted, a retry leaves two live ones of the key |
| KeyedCreateFailures.OverlappingRetriesFork | internal/apiserver/sandboxservice.go:243-262 | a run from a fresh node: two retries of a deleted sandbox both pass the gone check and leave two live ones |
| KeyedCreate.SandboxService.ProvisionSandboxGone | internal/apiserver/sandboxservice.go:284-293 | true if and only if the operation is done, names a sandbox, and this node has no record of it or has it as lost |
| KeyedCreate.SandboxService.CreateSandbox | internal/apiserver/sandboxservice.go:237-278 | a mapped operation comes back unchanged unless its sandbox is missing or lost here; else a fresh one is stored, mapped and run |
| Base64.RoundTrip | internal/apiserver/filescopy.go:97-130 | decoding an encoding gives the bytes, for every byte sequence |
| Base64.Alphabet | internal/apiserver/filescopy.go:115 | the alphabet is table 1 of RFC 4648 |
| Base64.TestVectors | internal/apiserver/filescopy.go:115-116 | the test vectors of section 10 of RFC 4648 |
| Base64.PrefixDecodes | internal/apiserver/filescopy.go:170-189 | a prefix of an encoding decodes if and only if its length is a multiple of four, and then to a prefix of the bytes |
| Base64.TruncatedBlock | internal/apiserver/filescopy.go:170-189 | what the receiver makes of a truncated reply after trimming: nothing or a prefix of the block; of a whole reply the block itself |
| Base64.CutBlockIsShort | internal/apiserver/filescopy.go:170-189 | a reply cut anywhere decodes to fewer bytes than the block, if at all |
| Transfer.FullLengthMeansComplete | internal/apiserver/filescopy.go:59-92 | chunks that each lost a tail and still sum to the full length lost nothing |
| Transfer.StreamToSandbox | internal/apiserver/filescopy.go:97-130 | the staged file is what arrived of the source's chunks, in order, all of it unless the attempt met a fault; no exec carries more than eight arguments or one too long; no other file changes |
| Transfer.TryStage | internal/apiserver/filescopy.go:69-84 | a staged file of the announced size is the source, and with the right size announced an attempt is verified if and only if it met no fault |
| Transfer.CopyReaderToSandbox | internal/apiserver/filescopy.go:59-92 | at every moment the destination holds its old content or all of the source; success means the source; only the staging file is touched besides; it succeeds if and only if the directory call and the rename work and one of the first eight attempts meets no fault, and stages no more often than that takes |
| Transfer.InterleavedUploadsMix | internal/apiserver/filescopy.go:66-84 | two uploads to one destination over a lossless channel: the size check passes and the destination ends as the rest of one source followed by the batch of the other |
| Transfer.ReadChunkVerified | internal/apiserver/filescopy.go:170-189 | the block exactly, if and only if one of the first eight reads is whole; no read after that one |
| Transfer.CopyFileFromSandbox | internal/apiserver/filescopy.go:135-165 | for every file size success yields exactly the file, one whole read per block; it fails only if the size is not obtained or eight reads go wrong |
| GerritThreads.GerritRoot | internal/gitprovider/gerrit_review.go:187-198 | terminates on every reply graph, cyclic ones included, with the root of the walk |
| GerritThreads.RootMeaning | internal/gitprovider/gerrit_review.go:187-198 | the root is the first ancestor, the comment included, that answers nothing present or lies on a cycle |
| GerritThreads.ParentSharesRoot | internal/gitprovider/gerrit_review.go:187-198 | a reply and its present parent share a root if and only if the reply is not on a cycle, or answers itself |
| GerritThreads.IndexIsLast | internal/gitprovider/gerrit_review.go:159-162 | of comments with one id the last one listed is kept |
| GerritThreads.GroupsPartition | internal/gitprovider/gerrit_review.go:159-166 | a group holds exactly the comments with its root, with their multiplicity |
| GerritThreads.OpenThread | internal/gitprovider/gerrit_review.go:167-179 | a kept group is reported with all its comments by time, its root line and its newest comment, unresolved; a dropped one has a resolved newest comment |
| GerritThreads.ThreadsOfPath | internal/gitprovider/gerrit_review.go:157-180 | no root is reported twice, and every group of the path is reported or has a newest comment that is resolved |
| GerritThreads.OpenThreadsOf | internal/gitprovider/gerrit_review.go:150-184 | over all paths every thread reports a group, no group twice, every group is reported or settled, ordered by root id |
| GerritThreads.ReportedIffUnresolved | internal/gitprovider/gerrit_review.go:150-184 | with distinct update times a group is reported if and only if its newest comment is unresolved, and that comment is the one to answer |
| Events.Bus.Publish | internal/events/bus.go:37-68 | consecutive numbers; the ring stays the last events of the log; every queue with room whose filter names the sandbox and the type, or leaves them open, gets the event, no other changes |
| Events.Bus.Replay | internal/events/bus.go:71-81 | exactly the events of the whole log that match the filter's sandbox and types, past the given number and past what the ring dropped, in order |
| Events.Bus.Subscribe | internal/events/bus.go:86-101 | a fresh id with an empty queue; other subscribers unchanged |
| Events.RingReplays | internal/events/bus.go:71-81 | replaying the ring equals selecting from the full log, cut at the oldest event retained |
| Events.StreamOrder | internal/apiserver/watchevents.go:84-114 | in every interleaving a watcher's stream is strictly increasing and all matching, and complete if and only if nothing matching fell between replay and subscription and no full queue was met |
| AgentRun.Poll | internal/apiserver/sandboxservice.go:558-587 | after the loop the record's activity is the last one the throttle recorded; nothing else changes |
| AgentRun.NeverLate | internal/apiserver/sandboxservice.go:558-587 | at every moment of a paced run the stored activity is at most the timeout old |
| AgentRun.UptoLeaves | internal/apiserver/sandboxservice.go:558-587 | what the loop has stored by any moment is the activity of that moment |
| AgentRun.ListDuringRun | internal/sandbox/manager.go:314-332 | at every moment of a run paced within the bound the idle listing names other sandboxes only |
| AgentRun.NeverReapedMidRun | internal/sandbox/manager.go:314-332 | every paced run is spared by the idle listing if and only if delay plus span fit into the half the throttle leaves |

## Left out

- Transport: memberlist, gRPC, TLS, gateway, websocket and SSE plumbing; exchanges and calls are abstract steps.
- The sandbox daemon, its SDK and host-limit detection; the backend is a set of names that may lose members.
- Cryptography, credentials, authorisation, audit, metrics, configuration checks and schema migration.
- Git pipelines and forge clients other than Gerrit's thread grouping; the console other than the template name.
- Floating-point rounding and NaN: resources are exact reals.
- `buildCandidates`: one appending loop over peers; the scheduler is proved for every list of candidates.
- `SplitRepoTag` and the spec conversions: single expressions.
- `ReapIdle`, drain and auto-publish: their loops stop what the idle listing names; draining to empty is not claimed.
- Message contents of events, operations and records that no decision reads: ports, timestamps of creation, payload encoding.
- Failures of the record store and of directory, secret and port calls beyond those given as parameters.
- Membership changes and restarts while a revocation spreads: `Flooding` has a fixed fleet that keeps running.
- Events.Bus.Publish: the 64-bit sequence number does not wrap.
- Membership.AdoptionLasts: a write of the swarm file that fails is taken to leave the file as it was.
- Membership.RevocationDurable: a store write that fails, which the code ignores, is not modelled.
- OperationRuns.LifeCycleIffTimely: is about the continuations in which every later run begins in time.
- Placement.Target.Provision: two handlers of one request at the same time are not modelled.
- Scheduler.ScheduleCanonical: asks the tie hash to keep the listed node ids apart; with a collision input order decides.
- AgentRun.Poll: models the loop's own activity; other activity on the sandbox only makes it younger.
- GerritThreads.OpenThreadsOf: with equal update times it says only that one of the newest comments decides, as the code's sort is not stable.
