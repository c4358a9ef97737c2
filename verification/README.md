# Verification model of dariyanWS

A Dafny model of the three connected cores of this repository, with proofs about them.

**The managed-cache control loop.** nache's API writes rows; its reconciler compares them with the
instances it finds and closes the difference; chala starts, finishes and removes instances on a Docker
daemon, using the container's name as a lock. The handlers and the reconciler are written in the order of
their code (`Chala.Server`, `NacheStore.Store`, `NacheReconciler.Reconciler`), and proved to do what they
do one daemon call, one statement or one effect at a time. Those steps are the transition systems of
`ChalaRuns` and `NacheRuns`: any number of handlers of any account, interleaved call by call and dropped
anywhere; API calls statement by statement; a listing that is made while it changes; failures, timeouts
and crashes between any two effects; nodes that die or change health. `NacheSafety` holds what is true in
every run. `NacheConvergence` is about the same runs: what passes do while rows stay as they are, calls are
answered and no node dies, and other accounts do as they like (`NacheQuiet`, `NacheListing` and `NachePass`
say so step by step). `NacheProgress` shows that such passes can always be brought to their end.

**The signing stack in two languages.** The canonical string as Go builds it and as C++ builds it, byte
for byte; the C++ streaming SHA-256 over its 64-byte buffer against FIPS 180-4 and the HMAC against
RFC 2104; the encoder, the query printer and the parser that undoes it; the header and its verification.

**The authorization decision and its caches.** The TTL cache with its shared loads, the policy engine, the
policies and their attachments with the hooks that reach the cache, the capability and the Guard that
checks it offline, and the route table that names what is asked for.

Strings in chala, nache, IAM and the router are Go strings with one character for each byte; everything
that is signed or hashed is a sequence of bytes. Times are integers in nanoseconds, except in request
signing, where seconds are reals. Digests and counters wrap as the machine's words do.

## What turned out differently

- `DeletePolicy` reads who is affected, deletes, and then fires the hooks
  (internal/iam/server.go:212-234). Its comment argues the order of the first two; the gap between them
  remains. If the policy is attached in the gap and the principal's policies are loaded, the cascade
  removes the attachment, no hook fires for that principal, and the cache goes on answering from a policy
  that is gone, until its TTL. `IamRuns.DeletionCanMiss` is that run, `IamRuns.DeletionIsRightIff` the exact
  condition.
- A hook drops what is cached, not what a load has read, and a statement that is applied while its call comes
  back with an error fires no hook. The cache is right all the way through a run if and only if
  (`IamRuns.CachedIsCurrentIff`): no last hook for a principal fires while a load of it is open that read when
  it had something else; no last hook is lost while such a load, or an entry that rests on one, is there; and
  whoever has a policy and is cached or being loaded when it is deleted was read to be affected, or waits for a
  hook of its own. A load that spans a change but is stored before the hook does no harm.
- An invalidation is final if and only if no open load of that key has read an older version than the source
  holds by then and may still answer (internal/ttlcache/ttlcache.go:126-195): such a load stores, and answers,
  after it. A load that has not read yet, or read the current version, does no harm.
  `TtlCacheRuns.InvalidationIsFinalIff` says so of every run, `TtlCacheRuns.OpenLoadUndoesInvalidation` is one.
- `ValidateDocument` refuses an effect that was forgotten, so that no statement looks like a rule and decides
  nothing (internal/iam/policy.go:144-164). The enum is open: an effect of 7 is accepted, and read past.
  An accepted statement decides something if and only if its effect is to allow or to deny
  (`Iam.DocumentSaysSomething`, `Iam.NumberedIsLetIn`).
- A full cache refuses to store even a key it holds; the entry that is there stays until it is swept.
- chala accepts nache's request for a cluster if and only if it is not of nache's own account
  (internal/chala/names.go:137, `NacheCompute.NodeRequestIsValid`). A row of that account never has a node
  (`NacheConvergence.OwnNeverHasNode`) and stays as it is; the others converge beside it.
- A create that finds its name is let past the quota and may find the row gone when it inserts
  (internal/nache/api.go:107-124). The bound of Max + n - 1 holds nevertheless, because the name counted
  when it was found.

## Assumptions

- One reconciler runs, and nobody but nache asks chala for instances in nache's account.
- No RunInstance of an earlier pass is still being worked on when a pass begins. Terminates may linger.
- Convergence: rows are changed by the passes alone, calls for customers are answered, no pass crashes, no
  node dies or falls ill (a terminate left over from before finds nothing to remove), nothing of nache's is in
  the state `removing` when the first pass begins, and nodes that run are healthy when the second and the
  third begin. Other accounts do as they like, and nodes turn healthy, between any two steps. That calls
  are answered rests on room: with no more customers' rows than chala's quota none is refused.
- A load of the cache takes at most a given time from reading the source to answering those who wait.
- Ed25519 verifies exactly what was minted; two canonical strings with one MAC are named as an exception.

## Model

| member | source | states |
|---|---|---|
| `NacheSafety.OneNodePerCluster` | internal/nache/reconciler.go:79-118 | in every run, two containers of nache's account tagged for the same account and cluster are one container |
| `NacheSafety.NodesBelong` | internal/nache/compute.go:74-91 | in every run, a container of nache's account sits under `NodeName` of the cluster it is tagged for, that cluster has a row, it is on no network but nache's and that customer's, and past `created` it is on the customer's |
| `NacheSafety.NodeIsYoungerThanItsRow` | internal/nache/reconciler.go:125-135 | for every row there is a step at which it was inserted, when neither a node of its name was left nor anybody was making one; whatever runs for it now was created later |
| `NacheRuns.RowIsBornAlone` | internal/nache/store/store.go:218-225 | a name that has no row has no node and no RunInstance in flight |
| `NacheRuns.StepKeeps` | internal/nache/reconciler.go:79-190 | every step (API call, effect of a pass, daemon call of a handler, failure, crash, death or health change of a node) keeps the invariant |
| `NacheRuns.RunsKeep` | internal/nache/reconciler.go:79-190 | so the invariant holds in every state of every run |
| `NacheRuns.ForgetKeeps` | internal/nache/reconciler.go:126-134 | when a row is forgotten its node is gone and nobody is making another, so what is left are nodes of rows |
| `NacheRuns.BeginWorkKeeps` | internal/nache/reconciler.go:89-116 | what a pass plans from its two listings is sound: it runs nodes only for rows it wants, and terminates the node of every row it will forget |
| `NacheRuns.SucceedKeeps` | internal/nache/reconciler.go:127-131 | going on after an effect that succeeded is sound; after the terminate of its own node a cluster has none |
| `NacheRuns.ChalaKeeps` | internal/chala/server.go:132-297 | no daemon call of any handler, of any account, breaks what nache relies on |
| `NacheSafety.RowsAdvance` | internal/nache/store/store.go:135-225 | each step takes each row from nothing to creating, forwards, or from deleting to nothing |
| `NacheSafety.RowsNeverGoBack` | internal/nache/store/store.go:198-216 | while a row is there its state never goes back, even when a pass writes from a snapshot read before a delete |
| `NacheSafety.DeletedIsDeleting` | internal/nache/api.go:156-170 | in every run a row is deleting from just after its delete until it is gone |
| `NacheSafety.CreateAnswersMean` | internal/nache/api.go:107-130 | in every run a create is answered with the row that is there, not one being deleted when the name was taken, and refused only for the reason that holds just then |
| `NacheStore.StatementsAdvance` | internal/nache/store/store.go:135-225 | each SQL statement alone obeys that order |
| `NacheStore.MarkedIsDeleting` | internal/nache/store/store.go:178-189 | a delete sets the state of its row to deleting, keeps its nodes and every other row, and does nothing without a row |
| `NacheStore.StatementsWrite` | internal/nache/store/store.go:135-225 | what insert, observe and forget write of their one row, and that they write no other |
| `NacheStore.CreateOutcome` | internal/nache/api.go:107-130 | the four statements of an undisturbed create: a new name gets a row while the account has room and is refused without; a name that is taken keeps its row and is refused while it is being deleted |
| `NacheSafety.ActiveWasSeenHealthy` | internal/nache/reconciler.go:177-189 | a row is active only if an earlier listing, made while this row was there, showed its own node running and healthy |
| `NacheSafety.DeletingRefusesCreate` | internal/nache/api.go:107-130 | a create that finds its name deleting from arrival to answer can only be refused for that |
| `NacheSafety.ClustersOvershootByLessThanInFlight` | internal/nache/api.go:107-124 | with at most n creates of an account unanswered at any time it has at most Max + n - 1 clusters |
| `NacheSafety.BirthOf` | internal/nache/store/store.go:141-143 | every row was inserted by some step, before which there was none |
| `NacheConvergence.ThreePasses` | internal/nache/reconciler.go:79-190 | in any run, from whatever state it has come to, three quiet passes, with other accounts and turning health in between, leave every customer's row active with its one healthy node, no other node, exactly the rows that were not deleting, and rows of nache's own account as they were |
| `NacheConvergence.AfterThreePasses` | internal/nache/reconciler.go:79-190 | after such three passes, as long as the run stays quiet and however many passes it makes, no call is made but a RunNode for nache's own account, and whenever nache rests the rows are as the third pass left them and true |
| `NacheConvergence.DeletedIsGone` | internal/nache/reconciler.go:124-133 | after a delete, the next quiet pass to begin leaves neither the row nor its node |
| `NacheConvergence.PassFalls` | internal/nache/reconciler.go:121-190 | from the beginning of one quiet pass of a run to the beginning of the next the distance of every cluster chala serves falls, unless it is zero |
| `NacheConvergence.QuietPassDoes` | internal/nache/reconciler.go:79-118 | from BeginPass to EndPass, whatever comes in between, every cluster is taken from the phase it was in, or had turned healthy to when it was listed, to what the plan promises |
| `NacheConvergence.Rests` | internal/nache/reconciler.go:54-69 | between two passes nothing of nache's changes but that nodes may turn healthy |
| `NacheConvergence.SurvivorsOf` | internal/nache/reconciler.go:124-133 | a quiet pass forgets the deleting rows and no other |
| `NacheConvergence.OwnIsLeft` | internal/nache/reconciler.go:147-153 | of a cluster of nache's own account, for which chala refuses a node, a quiet pass leaves the row as it was |
| `NacheConvergence.OwnNeverHasNode` | internal/chala/names.go:131-150 | in no state of any run is there a node for a cluster of nache's own account, nor is chala at making one |
| `NacheConvergence.NoMoreCalls` | internal/nache/reconciler.go:177-189 | once converged, a quiet pass of any run, finished or not, asks nothing of chala for any customer |
| `NacheConvergence.StaysConverged` | internal/nache/reconciler.go:177-189 | and leaves the rows as they are |
| `NacheConvergence.RestsConverged` | internal/nache/reconciler.go:54-69 | nor does the rest between two passes undo it |
| `NacheConvergence.NeverRefused` | internal/chala/server.go:132-249 | with room for the nodes of all customers, what a quiet pass waits for is never refused, whatever other accounts do |
| `NachePass.PassOn` | internal/nache/reconciler.go:79-118 | every quiet step keeps what is known of each cluster: done with, being dealt with, or still as it was listed |
| `NachePass.CallOn` | internal/chala/server.go:132-297 | so does a daemon call of any handler, of the pass or of another account, between two effects |
| `NachePass.WorkStarts` | internal/nache/reconciler.go:89-106 | two listings, made while nodes turn healthy and other accounts go on, plan for every cluster by a phase it is in or was in |
| `NachePass.StatementOn` | internal/nache/reconciler.go:181-189 | a row that is written touches no other cluster, and says what is true of the node |
| `NachePass.RefusedOn` | internal/nache/reconciler.go:96-104 | a call that is refused ends the work for its own cluster alone |
| `NachePass.AskSteps` | internal/chala/server.go:132-249 | a handler nobody interferes with at its node is never at a step that fails, but for lack of room |
| `NacheListing.TaggedShows` | internal/nache/reconciler.go:89-94 | the listing files under a cluster its own node, or nothing |
| `NacheListing.NoOrphans` | internal/nache/reconciler.go:108-116 | and no node of a row is taken for an orphan |
| `NacheQuiet.CallKeeps` | internal/chala/server.go:132-297 | no call but one of the pass about that very node changes a node of nache's, beyond turning it healthy |
| `NacheQuiet.OnlyOwnOn` | internal/nache/compute.go:74-91 | chala is at nothing of nache's but the call its pass waits for |
| `NacheProgress.GoesOn` | internal/nache/reconciler.go:79-118 | in every state of a quiet pass there is a quiet step that brings it nearer to its end |
| `NacheProgress.PassCanEnd` | internal/nache/reconciler.go:79-118 | a quiet pass of any run can be brought to its end from wherever it is, if the handler it waits for lives and there is room |
| `NacheProgress.PassCanBeMade` | internal/nache/reconciler.go:54-69 | any run that is at rest, with room and nothing half removed, goes on with a quiet pass |
| `NacheProgress.CanConverge` | internal/nache/reconciler.go:54-69 | and to where every customer is served: the hypotheses of the three passes can be met from there |
| `NacheReconciler.NothingRefused` | internal/nache/reconciler.go:100-117 | with no failure everything planned is issued |
| `NacheReconciler.PassDoes` | internal/nache/reconciler.go:79-190 | for any two listings, the effects of a pass: it terminates exactly the nodes of clusters that are gone or being deleted, strays and failing nodes, runs exactly what is missing or half made, forgets exactly the deleting rows, and writes of the others what was seen |
| `NacheReconciler.Reconciler.Pass` | internal/nache/reconciler.go:79-118 | issues exactly the planned effects of all clusters and then of the orphans, where a failure ends the effects of its cluster and of no other; reports success iff nothing failed |
| `NacheReconciler.Reconciler.Reconcile` | internal/nache/reconciler.go:121-190 | issues the plan of one cluster up to the first failure |
| `NacheReconciler.Reconciler.Act` | internal/nache/reconciler.go:151-189 | issues what is due for the cluster's own node |
| `NacheReconciler.Reconciler.RemoveStrays` | internal/nache/reconciler.go:136-149 | terminates every node that is not the cluster's own and finds that one |
| `NacheReconciler.Reconciler.TerminateAll` | internal/nache/reconciler.go:126-131 | terminates every node of a deleting cluster, up to the first failure |
| `NacheReconciler.Reconciler.PassClusters` | internal/nache/reconciler.go:89-107 | reconciles every cluster and leaves the nodes filed under none |
| `NacheReconciler.Reconciler.PassOrphans` | internal/nache/reconciler.go:109-117 | terminates each of what is left once, in whatever order |
| `NacheReconciler.Reconciler.Group` | internal/nache/reconciler.go:89-94 | files every node under the key it is tagged for, in order |
| `NacheReconciler.IssuedSplit` | internal/nache/reconciler.go:100-117 | what is issued for two lists of tasks is what is issued for the one and then for the other |
| `NacheStore.Store.Create` | internal/nache/store/store.go:135-156 | inserts unless the row is there, fails iff the row is deleting or there is no account |
| `NacheStore.Store.CreateCluster` | internal/nache/api.go:91-139 | look up, count, insert, with nothing in between |
| `NacheStore.CreateAloneIsItsSteps` | internal/nache/api.go:107-124 | the steps of a create, taken alone, come to that |
| `NacheStore.Store.Get` | internal/nache/store/store.go:159-161 | the row, or not found |
| `NacheStore.Store.Count` | internal/nache/store/store.go:164-169 | the number of rows of the account |
| `NacheStore.Store.MarkDeleting` | internal/nache/store/store.go:178-189 | moves a row to deleting, fails iff there is none |
| `NacheStore.Store.SetObserved` | internal/nache/store/store.go:203-216 | records nodes and promotes to active, unless the row is deleting |
| `NacheStore.Store.Forget` | internal/nache/store/store.go:220-225 | removes a row only if it is deleting |
| `NacheStore.Store.All` | internal/nache/store/store.go:194-196 | every row exactly once |
| `NacheCompute.NodeNameInjective` | internal/nache/compute.go:44-47 | two clusters never have one node name |
| `NacheCompute.NodeRequestReads` | internal/nache/compute.go:74-91 | the whole request for a node: name, image, attachment, one alias and three tags |
| `NacheCompute.NodeRequestIsValid` | internal/nache/compute.go:74-91 | chala accepts what nache asks for, for a valid cluster, iff the cluster is not of nache's own account |
| `NacheCompute.EndpointIsValid` | internal/nache/api.go:46-48 | the endpoint is an alias nache may claim on the customer's network |
| `NacheCompute.NodeIsListedUnderItsKey` | internal/nache/compute.go:65-72 | a node is found again by its tag, under the cluster it was made for |
| `NacheCompute.StateIs` | internal/chala/server.go:476-490 | which words of the daemon count as pending, in service, stopped and terminating |
| `ChalaRuns.AttachedBeforeStarted` | internal/chala/server.go:251-280 | over all interleavings of concurrent, retried, dropped handlers: no container with an attach label is past `created` off that account's network, and none is on a network but its own account's and that one |
| `ChalaRuns.RetryFinishes` | internal/chala/server.go:284-297 | in every reachable state, an undisturbed PUT of a taken name finishes the container if it is the same request, and otherwise is refused and changes nothing |
| `ChalaRuns.RaceEnds` | internal/chala/server.go:222-231 | in every reachable state a PUT that lost the race for its name ends in the winner's container iff it asked for the same, is refused if not, and fails if it is gone |
| `ChalaRuns.AnswersMean` | internal/chala/server.go:132-297 | in every run an answer with a container means it was there, made by the same request, attached as asked and started; each error has its own cause at the call that shows it |
| `ChalaRuns.StartRuns` | internal/chala/server.go:257-282 | a PUT that starts its container leaves it running or restarting |
| `ChalaRuns.StopsOnlyWhatItFound` | internal/chala/server.go:316-338 | a terminate takes away the container it found, never one that came in its place, and no other |
| `ChalaRuns.NetworksExist` | internal/chala/server.go:199-214 | in every run a network is there before a container is put on it |
| `ChalaRuns.OnlyServicesAttach` | internal/chala/names.go:123-150 | in every run an attached container is that of a service, on another account's network, under at most four names of that account and that service |
| `ChalaRuns.QuotaOvershootsByLessThanAdmitted` | internal/chala/server.go:181-198 | with at most k PUTs of an account between their count and their create at any time it has at most Max + k - 1 instances |
| `ChalaRuns.StepKeeps` | internal/chala/server.go:132-333 | every step keeps the invariant, and containers only go, come with new ids, gain networks or change status |
| `ChalaRuns.RunsKeep` | internal/chala/server.go:132-333 | so it holds in every state of every run |
| `ChalaRuns.StartGood` | internal/chala/server.go:257-280 | a start never takes an unattached container out of `created` |
| `ChalaRuns.AdoptGood` | internal/chala/server.go:284-297 | what `adopt` hands on to `finish` is a container of the same request |
| `ChalaRuns.WhereContainersComeFrom` | internal/chala/server.go:211-220 | a step makes no container but the one its handler asks for |
| `Chala.PutOnTakenName` | internal/chala/server.go:284-297 | the whole outcome of an undisturbed PUT whose name is taken |
| `Chala.PutOnFreeName` | internal/chala/server.go:181-249 | the whole outcome of an undisturbed PUT whose name is free, quota included |
| `Chala.LostRaceEnds` | internal/chala/server.go:222-231 | a PUT whose create conflicts, left to itself, finishes the winner's container for the same request and is refused for another |
| `Chala.LostNameEnds` | internal/chala/server.go:222-231 | and fails if the winner is gone by then |
| `Chala.FinishEnds` | internal/chala/server.go:257-280 | `finish` leaves any container attached as asked, started if it was `created`, and touches no other |
| `Chala.StepDescends` | internal/chala/server.go:132-249 | every daemon call brings the answer nearer |
| `Chala.Server.Run` | internal/chala/server.go:132-249 | the handler, in the order of its code, comes to what its daemon calls come to one by one |
| `Chala.Server.AdoptExisting` | internal/chala/server.go:284-297 | the labels decide, and the outcome is that of the daemon calls from `adopt` on |
| `Chala.Server.CreateNew` | internal/chala/server.go:211-249 | the outcome of the daemon calls from the create on |
| `Chala.Server.Finish` | internal/chala/server.go:257-280 | attach before start: the outcome of the daemon calls from the inspection on |
| `Chala.Server.StartIt` | internal/chala/server.go:273-279 | the outcome of the daemon calls from the start on, a start that is refused included |
| `Chala.Server.Describe` | internal/chala/server.go:438-445 | the answer of the last inspection, which fails if the container is gone |
| `Chala.Server.Terminate` | internal/chala/server.go:316-333 | removes the container found under the name, or says there is none |
| `ChalaNames.AdoptsExactly` | internal/chala/server.go:284-297 | `adopt` accepts a PUT iff its image, tags, attached account and aliases are those of the request that made the container |
| `ChalaNames.TagsFromUndoes` | internal/chala/names.go:87-108 | `tagsFrom` gives back exactly the tags `instanceLabels` was given, attached or not |
| `ChalaNames.AliasesInjective` | internal/chala/server.go:206-210 | joining validated aliases with commas loses nothing |
| `ChalaNames.FixedLabelsRead` | internal/chala/server.go:205-209 | the other labels read back as what was asked |
| `ChalaNames.LabelsAre` | internal/chala/names.go:87-98 | the labels that say what a container is, whose, and its name |
| `ChalaNames.SameTags` | internal/chala/server.go:506-516 | the loop decides equality of maps |
| `ChalaNames.BuildLabels` | internal/chala/names.go:87-98 | the loop builds the labels of every tag |
| `ChalaNames.ReadTags` | internal/chala/names.go:100-108 | the loop reads every tag and nothing else |
| `ChalaNames.ValidateTags` | internal/chala/names.go:53-66 | accepts exactly the valid tags |
| `ChalaNames.ValidTagsIff` | internal/chala/names.go:53-69 | what tags are valid, character by character |
| `ChalaNames.ValidateAttach` | internal/chala/names.go:123-150 | refuses what it must, with the right error |
| `ChalaNames.AttachIff` | internal/chala/names.go:123-150 | an attachment is let through iff it is none and has no names, or comes from a service, for another account, with at most four names `<host>.<account>.<service>.dariya.internal`; without a service it is denied |
| `ChalaNames.AliasOwner` | internal/chala/names.go:141-149 | no name can be claimed for two accounts or by two services |
| `ChalaNames.ContainerNameInjective` | internal/chala/names.go:68-73 | a look-up for one account cannot land on another's instance |
| `ChalaNames.NetworkNameInjective` | internal/chala/names.go:75-76 | two accounts never share a network |
| `StreamingSha256.Sha256Stream.Update` | clients/cpp/src/sha256.cpp:61-77 | whatever piece is fed, what has been absorbed is what was fed before followed by it |
| `StreamingSha256.Sha256Stream.Finish` | clients/cpp/src/sha256.cpp:79-103 | for messages under 2^61 bytes, the digest is that of sections 5.1.1 and 6.2.2 of FIPS 180-4 |
| `StreamingSha256.Sha256Stream.CompressBuffer` | clients/cpp/src/sha256.cpp:28-59 | one block is compressed as section 6.2.2 of FIPS 180-4 says |
| `StreamingSha256.Sha256Stream.constructor` | clients/cpp/src/sha256.cpp:23-26 | starts from the initial hash value with nothing fed |
| `StreamingSha256.Sha256Stream.Flush` | clients/cpp/src/sha256.cpp:72-76 | compressing a full buffer forgets nothing that was fed |
| `StreamingSha256.Sha256Stream.Fill` | clients/cpp/src/sha256.cpp:66-71 | copying into the buffer feeds exactly what is copied |
| `StreamingSha256.Sha256Stream.LengthField` | clients/cpp/src/sha256.cpp:90-94 | the length field is the bit count, most significant byte first |
| `StreamingSha256.Sha256Stream.FillZeros` | clients/cpp/src/sha256.cpp:83-89 | zero bytes up to the length field, over a block boundary if need be |
| `StreamingSha256.ExpandSchedule` | clients/cpp/src/sha256.cpp:29-42 | the 64 words of the message schedule |
| `StreamingSha256.RunRounds` | clients/cpp/src/sha256.cpp:43-56 | the 64 rounds |
| `StreamingSha256.ZeroBytesUnique` | clients/cpp/src/sha256.cpp:82-89 | there is one number of zero bytes under a block that fills up the message |
| `StreamingSha256.PadIs` | clients/cpp/src/sha256.cpp:79-94 | what `finish` appends is the padding |
| `StreamingSha256.BitCountAdds` | clients/cpp/src/sha256.cpp:61-64 | the wrapping 64-bit counter counts the bits fed |
| `Sha256Spec.PaddingIsMinimal` | clients/cpp/src/sha256.cpp:79-94 | the padding is the least section 5.1.1 of FIPS 180-4 allows |
| `Sha256Spec.PadReads` | clients/cpp/src/sha256.cpp:79-108 | the padded message byte by byte |
| `Sha256Spec.RoundConstantsAreCubeRoots` | clients/cpp/src/sha256.cpp:8-17 | the round constants are the first 32 bits of the fractions of the cube roots of the primes, by integer bounds |
| `Sha256Spec.InitialHashIsSquareRoots` | clients/cpp/src/sha256.cpp:24-26 | the initial hash value is that of the square roots of the first eight |
| `Sha256Spec.RoundIs` | clients/cpp/src/sha256.cpp:44-62 | a round as sums modulo 2^32 |
| `Sha256Spec.CompressIs` | clients/cpp/src/sha256.cpp:28-59 | a block adds to each word of the hash what the rounds made of it |
| `Sha256Spec.ScheduleIs` | clients/cpp/src/sha256.cpp:30-40 | a word of the schedule is four bytes of the block, or a sum modulo 2^32 of four words before |
| `Sha256Spec.WordsAreBigEndian` | clients/cpp/src/sha256.cpp:30-36 | words are read and written with the most significant byte first |
| `Hmac.HashChunks` | clients/cpp/src/sha256.cpp:61-109 | the hash of any chunking is the hash of the whole |
| `Hmac.ComputeHmac` | clients/cpp/src/hmac.cpp:8-36 | section 2 of RFC 2104, for keys shorter than, equal to and longer than a block |
| `Hmac.PadsAre` | clients/cpp/src/hmac.cpp:8-40 | the two keyed pads byte by byte: the key, or its digest, or zero, xored with 0x36 and with 0x5c |
| `Hmac.NormaliseKey` | clients/cpp/src/hmac.cpp:12-18 | the key, hashed if it is longer than a block, padded with zeros |
| `Hmac.WritePad` | clients/cpp/src/hmac.cpp:20-26 | every byte of the key xored with the mask |
| `Hmac.EqualConstantTime` | clients/cpp/src/hmac.cpp:38-49 | true iff the strings are equal |
| `Hmac.WriteHex` | clients/cpp/src/sha256.cpp:111-124 | lower-case hexadecimal of every byte |
| `Hmac.ToHexInjective` | clients/cpp/src/sha256.cpp:111-124 | only equal digests are written alike |
| `Hmac.HexReads` | clients/cpp/src/sha256.cpp:111-122 | the two digits of each byte, of 0123456789abcdef |
| `CanonicalInjectivity.CanonicalIsMeaning` | internal/signing/signing.go:161-232 | two requests have one canonical string iff they agree in upper-cased method, path up to empty and "/", multiset of query pairs, timestamp, body hash and scope |
| `CanonicalInjectivity.QueryInjective` | internal/signing/signing.go:196-210 | equal canonical queries come from the same multiset of pairs |
| `CanonicalInjectivity.PathInjective` | internal/signing/signing.go:182-191 | equal canonical paths come from equal paths, up to empty and "/" |
| `CanonicalInjectivity.ScopeInjective` | internal/signing/signing.go:122-124 | equal scope strings come from equal scopes |
| `CanonicalInjectivity.BodyInjective` | internal/signing/signing.go:236-239 | equal body hashes are equal digests |
| `CanonicalString.SignersAgree` | clients/cpp/src/signer.cpp:101-122 | for every path, body, scope, ASCII method and multiset of pairs the Go and the C++ canonical strings are the same bytes |
| `CanonicalString.GoCanonicalString` | internal/signing/signing.go:161-177 | Go computes the canonical string |
| `CanonicalString.CppCanonicalString` | clients/cpp/src/signer.cpp:101-122 | C++ computes the canonical string |
| `CanonicalString.GoCanonicalQuery` | internal/signing/signing.go:196-210 | sorting values by key and then all pairs comes to one sort of all pairs |
| `CanonicalString.CppCanonicalQuery` | clients/cpp/src/signer.cpp:72-95 | one sort of the encoded pairs |
| `CanonicalString.GoCanonicalPath` | internal/signing/signing.go:182-191 | splitting, encoding and joining on "/" encodes everything but the slashes |
| `CanonicalString.CppCanonicalPath` | clients/cpp/src/signer.cpp:50-70 | so does scanning by index |
| `CanonicalString.QueryOrderIsIrrelevant` | internal/signing/signing.go:193-210 | the order of the pairs never changes the canonical query |
| `CanonicalInjectivity.QueryIsAscending` | internal/signing/signing.go:203-208 | of two neighbouring pairs of the canonical query the first ends or has the smaller byte where they first differ |
| `CanonicalInjectivity.QueryHasPairs` | internal/signing/signing.go:196-214 | its pairs are the encoded pairs of the query, each as often as given |
| `CanonicalInjectivity.PathSegments` | internal/signing/signing.go:182-194 | every segment of the path is encoded by itself; no path is the root |
| `CanonicalInjectivity.CanonicalIs` | internal/signing/signing.go:161-180 | the seven lines of the string in their order, and the four fields of the scope |
| `CanonicalInjectivity.AlgorithmIs` | internal/signing/signing.go:161-180 | the first line is DARIYA1-HMAC-SHA256 |
| `CanonicalString.ListingIsIrrelevant` | internal/signing/signing.go:196-210 | nor does the order in which a map is read |
| `CanonicalString.EveryMapIsListed` | internal/signing/signing.go:196-210 | every map of values has such a reading |
| `UriEncoding.UriEncode` | internal/signing/signing.go:216-232 | the loop of both languages encodes every byte |
| `UriEncoding.FormDecode` | clients/cpp/src/signer.cpp:152-175 | the loop decodes escapes, plus signs and bad escapes as they come |
| `UriEncoding.DecodeEncode` | clients/cpp/src/signer.cpp:34-48 | decoding gives back what was encoded |
| `UriEncoding.EncodeInjective` | internal/signing/signing.go:216-232 | only equal strings are encoded alike |
| `UriEncoding.EncodedBytes` | clients/cpp/src/signer.cpp:34-48 | an encoded string has no separator in it |
| `UriEncoding.EncodedByteIs` | internal/signing/signing.go:216-234 | letters, digits, hyphen, underscore, point and tilde stay; of every other byte % and two digits of 0123456789ABCDEF are written |
| `UriEncoding.DecodeReads` | clients/cpp/src/signer.cpp:155-176 | the decoder reads a plus sign as a space and any byte but % as itself |
| `UriEncoding.DecodeReadsEscape` | clients/cpp/src/signer.cpp:155-176 | a % with two digits of either case as the byte they name |
| `UriEncoding.DecodeKeepsPercent` | clients/cpp/src/signer.cpp:155-176 | and any other % as itself |
| `Sorting.SortedIsUnique` | clients/cpp/src/signer.cpp:85-86 | there is only one sorted permutation, whichever algorithm finds it |
| `Sorting.AtMostMeans` | clients/cpp/src/signer.cpp:85-86 | the order is that of the first byte in which two strings differ, a prefix first |
| `WireQuery.WireRoundTrip` | clients/cpp/src/http11_signed.cpp:21-36 | for every list of byte-string pairs, parsing the wire query gives the same list in order |
| `WireQuery.SentQueryIsSignedQuery` | clients/cpp/src/signer.cpp:147-196 | the canonical query recomputed from the wire is the one that was signed |
| `WireQuery.BuildQueryString` | clients/cpp/src/http11_signed.cpp:21-36 | the loop writes the encoded pairs joined by "&" after "?" |
| `WireQuery.ParseQuery` | clients/cpp/src/signer.cpp:147-196 | the index-scanning loop parses part by part |
| `WireQuery.ReadPart` | clients/cpp/src/signer.cpp:182-189 | a part with, without or before an "=" |
| `WireQuery.PairReads` | clients/cpp/src/signer.cpp:182-189 | a part without = is a key with no value; otherwise the first = ends the key |
| `WireQuery.WireReads` | clients/cpp/src/signer.cpp:147-196 | what & separates is read by itself, and empty parts are skipped |
| `WireQuery.WireIs` | clients/cpp/src/http11_signed.cpp:21-36 | what is sent, pair by pair |
| `Signature.ParseAuthorization` | internal/signing/signing.go:277-314 | the loop over the parameters, with every error |
| `Signature.HeaderRoundTrip` | internal/signing/signing.go:258-314 | the header of a signature parses to its scope and signature |
| `Signature.ParameterReads` | internal/signing/signing.go:277-320 | what each parameter of a header is read as, and that others are ignored |
| `Signature.NoEqualsIsMalformed` | internal/signing/signing.go:277-320 | a parameter without = is malformed |
| `Signature.VerifiesWithinSkew` | internal/signing/signing.go:246-379 | a signed request verifies at exactly the instants within five minutes of its second |
| `Signature.AcceptedIsWhatWasSigned` | internal/signing/signing.go:339-378 | a signature made for any region and service is accepted on a request only if that is the same request and they are the endpoint's, unless two canonical strings have one MAC |
| `Signature.AcceptedIff` | internal/signing/signing.go:339-378 | whoever made it, a header is accepted iff its day is the scope's, the clock is within five minutes, region and service are the endpoint's, a body hash that was sent is right, and the signature is the MAC of the canonical string |
| `Signature.RefusedFor` | internal/signing/signing.go:339-378 | and refused for a check that fails |
| `Signature.OtherScopeIsRefused` | internal/signing/signing.go:359-362 | a request signed for another region or service is refused for that at every instant at which it would be good |
| `TtlCacheRuns.HitsAreFresh` | internal/ttlcache/ttlcache.go:154-163 | no hit is as old as its TTL, and a change at the source is hidden for less than the TTL and the time of a load |
| `TtlCacheRuns.AnswersAreFresh` | internal/ttlcache/ttlcache.go:126-152 | no answer, hit or waited for, rests on an older reading than that |
| `TtlCacheRuns.HitsWhileLive` | internal/ttlcache/ttlcache.go:126-163 | a Get is answered from the entry it finds iff that has not expired when it asks the clock |
| `TtlCacheRuns.EntryStays` | internal/ttlcache/ttlcache.go:154-195 | a live entry is there until its key is invalidated or stored again |
| `TtlCacheRuns.LoadsAreKept` | internal/ttlcache/ttlcache.go:133-177 | what a load brings is kept for the TTL of its kind unless the cache is full of live entries |
| `TtlCacheRuns.InvalidationIsFinal` | internal/ttlcache/ttlcache.go:189-195 | after an invalidation with no open load of the key that holds an older reading and may still answer, no Get that starts later returns anything older |
| `TtlCacheRuns.InvalidationIsFinalIff` | internal/ttlcache/ttlcache.go:126-195 | an invalidation is final, in every way the run may go on, iff there is no such load, from whatever state a run has come to |
| `TtlCacheRuns.OlderIsServed` | internal/ttlcache/ttlcache.go:126-187 | with such a load, at any of its stages, the run goes on to where a Get that started later is answered with the older reading |
| `TtlCacheRuns.OpenLoadUndoesInvalidation` | internal/ttlcache/ttlcache.go:133-144 | a run in which the older reading is stored and then answers a Get as a hit |
| `TtlCacheRuns.StoreKeepsOthers` | internal/ttlcache/ttlcache.go:165-177 | storing one key never costs another its live entry |
| `TtlCacheRuns.HoldsOnlyDefinitiveAnswers` | internal/ttlcache/ttlcache.go:133-144 | never more than the maximum is held, and no failure |
| `TtlCacheRuns.StepKeeps` | internal/ttlcache/ttlcache.go:126-195 | every step of every Get, load, store, invalidation, change and tick keeps the invariant |
| `TtlCacheRuns.RunsKeep` | internal/ttlcache/ttlcache.go:126-195 | so it holds in every state of every run |
| `TtlCache.StoringIsSafe` | internal/ttlcache/ttlcache.go:165-187 | a full cache sweeps what has expired or refuses: live entries stay |
| `TtlCache.StoringKeeps` | internal/ttlcache/ttlcache.go:165-177 | what is stored is held unless the cache is full of live entries, and then it is left as it is |
| `TtlCache.Cache.constructor` | internal/ttlcache/ttlcache.go:97-123 | zero and negative options take the defaults |
| `TtlCache.Cache.Get` | internal/ttlcache/ttlcache.go:126-152 | a live entry, or what was loaded, kept for the TTL of its kind |
| `TtlCache.Cache.Lookup` | internal/ttlcache/ttlcache.go:154-163 | an entry exactly while it is live |
| `TtlCache.Cache.Store` | internal/ttlcache/ttlcache.go:165-177 | sweeps if full, refuses if still full |
| `TtlCache.Cache.SweepExpired` | internal/ttlcache/ttlcache.go:179-187 | removes exactly what has expired |
| `TtlCache.Cache.Invalidate` | internal/ttlcache/ttlcache.go:191-195 | removes exactly the key |
| `Policy.FollowsTheRules` | internal/iam/policy.go:61-108 | the verdict is deny if some deny applies, else allow if some allow applies, else no, whatever the order |
| `Policy.VerdictAsWritten` | internal/iam/policy.go:61-142 | the verdict from the text of the policies: deny if a deny covers action and resource, else allow if an allow does, else no |
| `Policy.PrefixAllow` | internal/iam/policy.go:124-142 | one allow for a prefix and * allows exactly the actions that begin with it |
| `Policy.OrderIsIrrelevant` | internal/iam/policy.go:61-67 | permuting policies changes no verdict |
| `Policy.StatementOrderIsIrrelevant` | internal/iam/policy.go:61-67 | nor does permuting the statements in them |
| `Policy.Evaluate` | internal/iam/policy.go:68-108 | the nested loops decide as a scan that reads on past an allow and stops at a deny |
| `Policy.MatchesAny` | internal/iam/policy.go:115-122 | true iff some pattern matches |
| `Policy.MatchIff` | internal/iam/policy.go:124-142 | a pattern that ends in * covers what begins as it does, any other itself alone |
| `Policy.Matches` | internal/iam/policy.go:110-113 | true iff the statement applies |
| `Policy.AppliesToSomething` | internal/iam/policy.go:144-179 | a statement applies to some request iff it names an action and a resource |
| `Policy.ReadPast` | internal/iam/policy.go:96-99 | a statement that neither allows nor denies changes no verdict, whatever it is read with |
| `Iam.DocumentSaysSomething` | internal/iam/policy.go:150-179 | a statement of an accepted document changes the verdict on some request, read with some others, iff its effect is to allow or to deny |
| `Iam.NumberedIsLetIn` | internal/iam/policy.go:156-164 | a document with effect 7 is accepted and decides nothing |
| `Iam.ValidDocumentIff` | internal/iam/policy.go:150-179 | which documents are accepted, statement by statement |
| `Iam.IsPrincipalIff` | internal/iam/server.go:260-289 | policies are attached to users and roles, by the names there are, and to nothing else |
| `Iam.Server.Authorize` | internal/iam/authorize.go:71-124 | answers exactly what evaluating the current attachments answers, cached or not |
| `Iam.Server.DeletePolicy` | internal/iam/server.go:212-234 | removes the policy and its attachments, and leaves the cache coherent |
| `Iam.Server.AttachPolicy` | internal/iam/server.go:260-289 | attaches within one account only, and leaves the cache coherent |
| `Iam.Server.DetachPolicy` | internal/iam/server.go:295-308 | fails iff there was nothing attached, and leaves the cache coherent |
| `Iam.Server.CreatePolicy` | internal/iam/server.go:64-154 | refuses invalid and duplicate policies |
| `Iam.Server.PoliciesFor` | internal/iam/server.go:311-342 | every attached policy once, in the order of the database |
| `Iam.Server.PrincipalsAttachedTo` | internal/iam/server.go:236-253 | everybody the policy is attached to |
| `Iam.Server.PrincipalsChanged` | internal/iam/server.go:230-232 | after the hooks of everybody affected nothing stale is cached |
| `Iam.Server.PrincipalChanged` | internal/iam/server.go:54-58 | the hook drops the principal's entry |
| `Iam.Server.constructor` | internal/iam/authorize.go:46-56 | an empty server with an empty cache |
| `Iam.Server.GetPolicies` | internal/iam/authorize.go:101-107 | what the cache answers with is what the store says |
| `Iam.ListingIsUnique` | internal/iam/server.go:311-317 | there is one listing of a principal's policies in order |
| `IamRuns.CachedIsCurrentIff` | internal/iam/server.go:212-308 | over every interleaving: whatever is cached or being loaded of a principal that waits for no hook is what it has, in every state, iff every step is safe: no last hook of a principal fires while a load is open that read when it had something else, none is lost while such a load or an entry of one is there, and no deletion overlooks anybody |
| `IamRuns.StepKeepsIff` | internal/iam/server.go:212-308 | a step from a state that is right leads to one iff it is exact, for attach, detach, delete, hook, lost hook, load, store and expiry |
| `IamRuns.InvIsRight` | internal/iam/authorize.go:101-107 | that is: the cache is right, and will be whichever open load is stored next |
| `IamRuns.OldMeansStale` | internal/iam/authorize.go:101-107 | what a load or an entry holds is wrong iff it was read when the principal had something else |
| `IamRuns.OldLoadSpansChange` | internal/iam/server.go:212-308 | and then an attach, a detach or a delete for that principal came after the read |
| `IamRuns.AnswersAreCurrent` | internal/iam/authorize.go:71-124 | while every step is safe, evaluating what is cached or was read of a principal that waits for no hook, in any order, gives the verdict of the rules over the current attachments |
| `IamRuns.NobodyAttaches` | internal/iam/server.go:212-234 | a deletion misses nobody if the policy is attached to nobody between its read and its delete |
| `IamRuns.DeletionIsRightIff` | internal/iam/server.go:212-234 | in any run safe so far, the delete statement of a deletion leaves the cache right, and right whichever load comes in next, iff everybody who has the policy and is cached or being loaded was read to be affected or waits for a hook of its own |
| `IamRuns.DeletionCanMiss` | internal/iam/server.go:212-234 | and that happens: a run, safe up to its deletion, after which the cache allows a principal everything by a deleted policy while the attachments allow it nothing |
| `Arn.ParseThenFormat` | internal/arn/arn.go:58-86 | a name that parses is the rendering of what it parses to |
| `Arn.FormatThenParse` | internal/arn/arn.go:48-51 | every name comes back from its rendering |
| `Arn.FormatInjective` | internal/arn/arn.go:49-51 | no two names render alike |
| `Arn.FormatIs` | internal/arn/arn.go:48-51 | how a name is written |
| `Arn.ParsesIff` | internal/arn/arn.go:58-86 | what parses is exactly the names there are |
| `Arn.ValidateAccountId` | internal/arn/arn.go:98-108 | the loop accepts exactly twelve digits |
| `Capability.GoodUntil` | internal/capability/capability.go:116-128 | a genuine token is good until its lifetime and the skew are over and for less than a millisecond more; the exact instant |
| `Capability.AcceptedIff` | internal/capability/capability.go:192-220 | a token is accepted iff it is signed, its key is known, it was minted under it, and it is not past its expiry and the skew |
| `Capability.MintRecords` | internal/capability/capability.go:116-128 | a token says what was claimed and when, in whole milliseconds |
| `Staleness.AcceptedPoliciesAreRecent` | internal/capability/capability.go:215-217 | what a Guard accepts rests on policies read from the store more recently than policy TTL + load + decide-to-mint + token TTL + skew + 1 ms ago |
| `Staleness.GuardRestsOnRecentPolicies` | internal/servicekit/servicekit.go:118-180 | from the store to the service: what a Guard accepts was allowed, and not denied, by policies that were the store's for that principal less than policy TTL + load + decide-to-mint + token TTL + skew + 1 ms ago |
| `Staleness.AccountGuardRestsOnRecentPolicies` | internal/servicekit/servicekit.go:189-199 | the same for an operation on the account as a whole |
| `FrontDoor.GuardIsSound` | internal/servicekit/servicekit.go:118-180 | what a Guard accepts was allowed, for exactly that action and that ARN, to a principal of the resource's account, by policies that allow it and do not deny it |
| `FrontDoor.GuardAcceptsIff` | internal/servicekit/servicekit.go:118-180 | a Guard accepts exactly a good token for just this action and this resource of its own account |
| `FrontDoor.GuardAcceptsAccountIff` | internal/servicekit/servicekit.go:189-199 | the same for an operation on the account as a whole |
| `FrontDoor.AccountGuardIsSound` | internal/servicekit/servicekit.go:189-199 | the same for an operation on the account as a whole |
| `FrontDoor.AuthorizeIs` | internal/iam/authorize.go:71-124 | what is decided: nothing without names that parse, a denial across accounts whatever the policies, and otherwise what they say |
| `FrontDoor.GuardIsComplete` | internal/servicekit/servicekit.go:118-180 | and an allowed request is accepted by its service while the token lasts |
| `FrontDoor.AccountGuardIsComplete` | internal/servicekit/servicekit.go:189-199 | the same for an operation on the account as a whole |
| `FrontDoor.StepKeeps` | internal/authz/authz.go:97-144 | every token minted records a request that was allowed |
| `FrontDoor.RunsKeep` | internal/authz/authz.go:97-144 | in every state of every run |
| `Router.MatchesSegments` | internal/router/router.go:119-137 | matching a prefix is matching its segments |
| `Router.EligibleIff` | internal/router/router.go:100-137 | a route is eligible for its methods and the paths under its prefix |
| `Router.Match` | internal/router/router.go:100-117 | finds an eligible route with the longest prefix, or none if there is none |
| `Router.TableOrderIsIrrelevant` | internal/router/router.go:100-117 | with no two routes for one prefix and overlapping methods, the order of the table is irrelevant |
| `Router.TargetFor` | internal/router/router.go:154-170 | the action and the ARN of the best route |
| `Router.InstanceTarget` | cmd/frontdoor/main.go:144-162 | for every path that names an instance, the action and ARN chala's Guard assembles |
| `Router.ClusterTarget` | cmd/frontdoor/main.go:164-180 | for every path that names a cluster, the action and ARN nache's Guard assembles |
| `Router.ListTarget` | internal/router/router.go:184-192 | for the lists, the account-wide ones |
| `Router.PathIdIsName` | internal/router/router.go:199-216 | the id taken from the path is the name |
| `Router.PathResourceIsPlain` | internal/router/router.go:199-216 | a resource is built exactly from a plain id, and parses to the caller's account and that id alone |
| `Router.NewTable` | internal/router/router.go:74-97 | refuses at the first route without a service, a prefix or an action |
| `Router.AllowedInstanceIsServed` | internal/chala/server.go:412-423 | an allowed request for an instance is accepted by chala's Guard |
| `Router.AllowedClusterIsServed` | internal/nache/api.go:193-205 | an allowed request for a cluster is accepted by nache's Guard |
| `Router.AllowedListIsServed` | internal/chala/server.go:340-395 | and one for a list by the Guard of its service, for the account as a whole |

## Left out

- HTTP, the proxy, the Docker client, the connection pool and the migrations: only their effects on state,
  each as one step.
- The Docker daemon is what internal/chala/docker/docker.go:197-351 says of it: a taken name conflicts;
  connecting, starting and removing can be repeated; a removal is one step.
- Image catalog checks, memory and process limits, commands and health checks of a container: they change
  nothing here.
- Pull and creation times, IP addresses, DNS aliases on the daemon: not part of any property.
- `created_at`, `updated_at`, `observed_at` of a row.
- NacheStore.Store.All: does not model the order of the rows; no property depends on it.
- NacheStore.Store.Create: alone nothing comes between its two statements; in `NacheRuns` they are two steps.
- NacheRuns: a statement of a crashed pass does not linger in the database.
- `Wake` and `Run` of the reconciler: when a pass starts, not what it does.
- Two nache processes at once, and RunInstances that outlive the next pass.
- Chala.Server.Run: alone its create cannot conflict; the race for a name is in `ChalaRuns`. No catalog checks.
- Chala.Server.CreateNew: has no branch for a name that is taken at the create, which is in `Chala.RunStep`.
- NacheStore.Store.CreateCluster: nothing comes between its statements, and the capability was checked before.
- Signature.VerifiesWithinSkew: the calendar is an abstract injective rendering of seconds in 16 characters
  for the years 0 to 9999, read back exactly.
- Signature.ParseAuthorization: trims the spaces of ASCII only.
- CanonicalString.GoCanonicalString: upper-casing is that of ASCII methods; Go upper-cases more.
- WireQuery.SentQueryIsSignedQuery: the query is read back by the C++ client's own parser; the service reads it
  with Go's library, which is not part of this model.
- Both sorting libraries: whatever leaves a sorted permutation.
- Hmac.EqualConstantTime: not how long it takes.
- Sha256Spec: the six functions of section 4.1.2 are stated as the standard lists them, and not bit by bit.
- Iam.Server.CreatePolicy: no idempotency token and no default version of a document.
- Iam.Server.PoliciesFor: a document that does not decode is a read that fails; the database's order is any
  injective placing of names on a line.
- TtlCache.Cache.Get: the load is a parameter; what runs between look-up, load and store is in `TtlCacheRuns`,
  where a Get that waits is never abandoned.
- FrontDoor.GuardIsSound: base64, protobuf and the bytes of a token; a token is what it decodes to.
- Router.NewTable: its checks of handlers, upstreams and resource builders; handlers served in the front
  door's own process.
- The console, `dariyactl`, the experiments, sessions, secrets, pagination, access keys, catalog loading:
  user interface, measurement, or easy.
- `Http11Signed::consume` and `succeeded`: they rest on helpers that are not part of this model.
