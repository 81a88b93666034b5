# The machine actuator, verified

A Dafny model of the Alibaba Cloud machine actuator, with proofs about it. The actuator keeps one machine
object (labels, annotations, provider ID, provider status, conditions) in step with one ECS instance, through
four operations: Exists, Create, Update and Delete. `dafny verify dfyconfig.toml` checks everything.

## How it is built

**The cloud.** `Ecs.Client` logs every call with the clock reading. Its answers are arbitrary within a small
contract: an answer of the right kind, and at most one record per distinct requested ID. Whatever is proved of
the operations therefore holds for any behaviour of the cloud, including lagging describes and failing calls.

**The operations.** The modules `Tags`, `Lookup`, `Newest`, `Polling`, `Conditions`, `Machines`, `Creation` and
`Reconciler` follow the source files. Loops, fields, heap cells and array swaps are as in the source. Each
method is proved against a specification function or against a *Calls* predicate of `Creation` and `Protocol`,
which says which calls the operation makes on which answers, what it leaves in the object and what it returns.

**The theorems.** `Outcomes` says for each operation, in terms of its calls, their answers and the clock alone,
which cases there are, which call has to follow in each, what is returned and what the object shows; constants
stand there as literals. `Operations` and `Fixpoint` add what relates operations to each other.
`Runs` strings operations together: each starts from what was stored, where either of the two patches of the
previous one may have failed. `SingleInstance` adds a history of worlds (the instances that exist before each
call) and proves that a machine never has two live instances as long as tag lookups lag by no more than the
five-second pause after a launch; `LagBound` shows that this bound is exact. `Controller` drives the reconciler
class itself and proves that what results is such a run. `JsonPatch` and `PatchMachine` treat the two merge
patches that store the object, and `Credentials` the interleavings of credential lookups.

Points where the code differs from what its text suggests, modelled as the code has them:

- The module's language version is go 1.18, so the loops that collect `&instance` collect one shared variable.
  `Lookup.InstanceVar` is that heap cell. A list from a tag lookup has the right length, but every entry is the
  last record of the answer.
- The comment on `waitForInstancesStatus` says that an instance that is not found is waited for. The code ends
  the wait, without an error, on the first empty answer.
- `setProviderStatus(nil, …)` returns before it stores the condition, so the failed condition of an unsuccessful
  create is never stored.
- A condition with the same reason and message is not stored even if its status differs.
- `Update` writes the provider ID before it corrects the tags and the status after, so the two disagree when
  the correction fails.
- The comment on `sortInstances` says that it is to be called with running instances only; `UpdateMachine`
  calls it with all of them.

## Model

| member | source | states |
|---|---|---|
| `Tags.RemoveDuplicatedTags` | pkg/actuators/machine/instances.go:528-540 | the loop with its map of seen keys computes `Dedup`, whose meaning is DedupKeepsFirsts |
| `Tags.DedupKeepsFirsts` | pkg/actuators/machine/instances.go:527-540 | deduplication keeps exactly the first entry of each key, in the original order |
| `Tags.DedupMembers` | pkg/actuators/machine/instances.go:527-540 | keys are unique afterwards, and the members are exactly the first entries |
| `Tags.BuildTagList` | pkg/actuators/machine/instances.go:507-525 | the filtering loop, the fixed tags and the deduplication yield `BuiltTags` |
| `Tags.UserTagsAreUserTags` | pkg/actuators/machine/instances.go:510-515 | exactly the user tags outside the cluster prefix and Name survive the filter |
| `Tags.BuiltTagsAreManaged` | pkg/actuators/machine/instances.go:507-525 | whatever the user tags: unique keys, exactly one cluster-prefixed key and exactly one Name, both with this machine's values |
| `Tags.BuiltTagsAre` | pkg/actuators/machine/instances.go:507-540 | the built list completely: the first user tag of each unreserved key, in the user's order; then the cluster tag and Name; then ownership, origin and integration, each unless the user gave that key |
| `Tags.FixedKeyOnce` | pkg/actuators/machine/instances.go:516-524 | each of the five fixed keys is there exactly once: cluster and Name with the machine's values, the others with the first user value or else the default |
| `Tags.LookupAgreesWithBuild` | pkg/actuators/machine/instances.go:637-644 | the lookup filter for a name and a cluster matches a built list if and only if they are the ones it was built with |
| `Tags.CheckTags` | pkg/actuators/machine/instances.go:781-799 | the three flags of the tag loop: a correction is needed unless all three managed tags are there and the name is not empty |
| `Tags.RetagIff` | pkg/actuators/machine/filter.go:25-67 | no correction is needed if and only if the machine has a name and the three managed tags, by their literal keys and values, are all there; the correction writes those three, the lookup asks for the first two |
| `Tags.CorrectionConverges` | pkg/actuators/machine/instances.go:798-814 | after one correction a second one is needed if and only if the name is empty; the lookup tags match; all other tags stay, in order |
| `Tags.RetagAfterCreate` | pkg/actuators/machine/instances.go:516-524 | the first update after a create retags if and only if the first user tag with the ownership key has another value (or the name is empty) |
| `Ecs.Client.Call` | pkg/client/client.go:45-69 | one call: answered within the contract, logged and stamped; the clock does not go back |
| `Lookup.SupportedIsLive` | pkg/actuators/machine/utils.go:17-25 | an instance is supported if and only if it has an ID and is Pending, Starting, Running, Stopping or Stopped |
| `Lookup.Collect` | pkg/actuators/machine/instances.go:651-660 | the collecting loop over one shared variable: as many pointers as kept records, all denoting the last record |
| `Lookup.AliasedEmptiness` | pkg/actuators/machine/instances.go:651-662 | the collected list is empty if and only if no record is to be kept, for every answer |
| `Lookup.AliasedIsKept` | pkg/actuators/machine/instances.go:651-662 | the collected list is the intended filter if and only if every kept record equals the last one (with distinct IDs: nothing before the last record is kept) |
| `Lookup.GetInstanceByID` | pkg/actuators/machine/instances.go:560-576 | one describe by ID; the record if there is exactly one, in a supported state |
| `Lookup.GetInstances` | pkg/actuators/machine/instances.go:631-663 | without a cluster ID no call and an error; else one describe by the two lookup tags and the aliased list of supported records |
| `Newest.LessIsStrictPartialOrder` | pkg/actuators/machine/instances.go:727-749 | Less is irreflexive, asymmetric and transitive on all strings, whatever parses |
| `Newest.WeaklyOrderedIff` | pkg/actuators/machine/instances.go:727-749 | incomparability is transitive on a set of start times if and only if no malformed time sits beside two different parsed ones |
| `Newest.SortInstances` | pkg/actuators/machine/instances.go:755-757 | in place on Less and Swap: a permutation, sorted whenever the times allow it (the condition of WeaklyOrderedIff) |
| `Newest.GetRunning` | pkg/actuators/machine/instances.go:760-768 | the running instances, in order |
| `Newest.FirstOfSortedIsNewest` | pkg/actuators/machine/reconciler.go:156-168 | from any sorted rearrangement, the choice is running if any instance is, with no strictly newer candidate |
| `Newest.SelectNewest` | pkg/actuators/machine/reconciler.go:156-168 | sort, filter and choose: a candidate for all inputs, a newest one unless the start times are confused |
| `Newest.NewestMeaning` | pkg/actuators/machine/instances.go:751-757 | for times that are empty or parse: sorted means empty times first and then non-increasing times; newest means no start time yet, or none later |
| `Polling.StatusPoll.Invoke` | pkg/actuators/machine/instances.go:276-307 | the poll closure: one describe, then stop on an empty answer, stop when the count fits, else go on; its meaning is SatisfiedMeansSeen |
| `Polling.WaitForResult` | pkg/actuators/machine/utils.go:112-134 | at most timeout / delay + 1 polls, with exactly one pause of the delay after each that goes on, only the last one may stop the wait, its result or error is returned; a timeout if and only if none stops it, and only after the deadline |
| `Polling.PollBound` | pkg/actuators/machine/utils.go:127-132 | pauses of at least the delay that still end before the deadline leave room for one more poll |
| `Polling.WaitForInstancesStatus` | pkg/actuators/machine/instances.go:271-319 | the wait always ends: a timeout of at most zero becomes 900 seconds, 181 polls, with pauses of 5 seconds; a failure only after that time |
| `Polling.SizeOfMembers` | pkg/actuators/machine/instances.go:292-303 | pigeonhole: a list has as many members as entries if and only if it repeats none |
| `Polling.SatisfiedMeansSeen` | pkg/actuators/machine/instances.go:288-303 | a poll is satisfied if and only if the answer is empty, or the IDs are distinct and every one was seen with the status |
| `Polling.WaitMeaning` | pkg/actuators/machine/instances.go:271-319 | a finished wait: nil means its last poll saw nothing, instances mean it saw all of them with the status, a failure means that no poll did either |
| `Polling.WaitForOne` | pkg/actuators/machine/instances.go:250-267 | waiting for one instance yields that instance with the awaited status |
| `Conditions.SetMachineProviderCondition` | pkg/actuators/machine/utils.go:70-105 | the search and the write through the found entry compute `WithCondition` |
| `Conditions.SetKeepsOthers` | pkg/actuators/machine/utils.go:70-91 | one set keeps at most one entry per kind, every other entry and its place, and adds at most one |
| `Conditions.SetIsStoredIff` | pkg/actuators/machine/utils.go:93-109 | the stored status is the wanted one if and only if no entry with equal reason and message but another status was there |
| `Conditions.ConstructorsFollow` | pkg/actuators/machine/utils.go:46-62 | in the two conditions of the actuator, the status follows from the reason |
| `Conditions.HistoryEntry` | pkg/actuators/machine/utils.go:64-109 | over any history of sets whose status follows their reason, the entry is the last set, stamped with the first set or the latest status flip |
| `Conditions.HistoryKeepsUnique` | pkg/actuators/machine/utils.go:64-109 | over any history, kinds stay unique, the list only grows, and kinds that are never set keep their entry |
| `Machines.ExtractNodeAddresses` | pkg/actuators/machine/machine_scope.go:202-246 | the nested loops compute `NodeAddresses`, or fail without an instance |
| `Machines.MachineLabelWins` | pkg/actuators/machine/utils.go:27-44 | the machine label names the cluster, the upstream label only when it is missing; a machine is valid if and only if the machine label is there and not empty |
| `Machines.NicsFailIff` | pkg/actuators/machine/machine_scope.go:211-232 | extraction fails if and only if some non-empty address does not parse |
| `Machines.AddressesAre` | pkg/actuators/machine/machine_scope.go:208-245 | the addresses are exactly the parsed non-empty ones, of interfaces as internal and public ones as external, the internal ones first |
| `Machines.AddressesInOrder` | pkg/actuators/machine/machine_scope.go:208-245 | the addresses stand in the order of the answer: interface by interface, IPv6 before private ones, the public ones last |
| `Machines.StatusStoredIff` | pkg/actuators/machine/machine_scope.go:155-176 | condition and addresses are stored if and only if there is an instance and all its addresses parse; else they stay exactly as they were; the instance ID and state always change |
| `Machines.SpecificsAre` | pkg/actuators/machine/reconciler.go:323-353 | at every key: region, zone, type and state as written, every other label and annotation as it was; no other field of the machine changes |
| `Machines.WritesKeepCluster` | pkg/actuators/machine/reconciler.go:306-353 | the writes keep the cluster ID, the validity and the name |
| `Machines.ProviderIDInjective` | pkg/actuators/machine/reconciler.go:312 | the provider ID is injective over regions without a dot |
| `Machines.ProviderIDClashIff` | pkg/actuators/machine/reconciler.go:312 | two different regions admit clashing provider IDs if and only if one, followed by a dot, begins the other |
| `Creation.GetImageID` | pkg/actuators/machine/instances.go:321-352 | succeeds if and only if the answer starts with an available image, and yields that image |
| `Creation.GetSecurityGroupIDs` | pkg/actuators/machine/instances.go:354-385 | a success is non-empty and the in-order concatenation of what the references stand for; a failure has a bad reference or a bad answer |
| `Creation.GetSecurityGroupIDByTags` | pkg/actuators/machine/instances.go:387-422 | the groups answered for the deduplicated tags in the resolved resource group |
| `Creation.GetVSwitchID` | pkg/actuators/machine/instances.go:437-478 | succeeds if and only if the reference is usable and the answer is not empty, and yields the given or the first answered ID |
| `Creation.GetResourceGroupID` | pkg/actuators/machine/instances.go:820-860 | succeeds if and only if the reference is usable and the answer is not empty, and yields the given or the first answered ID |
| `Creation.PrepareRun` | pkg/actuators/machine/instances.go:76-229 | a request results if and only if the spec is well formed and every lookup was answered well, and then each of its fields is justified by the lookups |
| `Creation.LaunchAndWait` | pkg/actuators/machine/instances.go:230-268 | one RunInstances, exactly one ID or an error, a pause of five seconds, a wait until it runs with pauses of five seconds |
| `Creation.RunInstance` | pkg/actuators/machine/instances.go:70-268 | the calls of one runInstances are those of `RunCalls` |
| `Creation.CreateIsGated` | pkg/actuators/machine/instances.go:70-268 | nothing changes before RunInstances, which is issued at most once, if and only if every gate passed; afterwards only the new instance is described, at most 181 times; a success is that instance, running |
| `Reconciler.Reconciler.GetMachineInstances` | pkg/actuators/machine/reconciler.go:355-367 | by the recorded ID first, by tags when that finds nothing |
| `Reconciler.Reconciler.SetProviderID` | pkg/actuators/machine/reconciler.go:306-321 | afterwards the provider ID is the instance's, also when the write is skipped |
| `Reconciler.Reconciler.SetMachineCloudProviderSpecifics` | pkg/actuators/machine/reconciler.go:323-353 | nil maps are made, labels and annotations written |
| `Reconciler.Reconciler.SetProviderStatus` | pkg/actuators/machine/machine_scope.go:155-199 | the early return and the full path together are `WithStatus` |
| `Reconciler.Reconciler.Exists` | pkg/actuators/machine/reconciler.go:277-303 | its calls, its answer and its requeue; the object stays |
| `Reconciler.Reconciler.CreateMachine` | pkg/actuators/machine/reconciler.go:74-94 | validation and user data before any call; on failure only the instance ID and state are cleared |
| `Reconciler.Reconciler.Create` | pkg/actuators/machine/reconciler.go:52-72 | its calls, the object it leaves and its result are those of `CreateCalls` |
| `Reconciler.Reconciler.UpdateMachine` | pkg/actuators/machine/reconciler.go:124-169 | the choice among the found instances, the two requeues, the cleared identity; on an aliased list the newest is the first |
| `Reconciler.Reconciler.CorrectExistingTags` | pkg/actuators/machine/instances.go:772-814 | at most one TagResources, exactly when needed, on this instance with the three managed tags |
| `Reconciler.Reconciler.Update` | pkg/actuators/machine/reconciler.go:97-122 | its calls, the object it leaves and its result are those of `UpdateCalls` |
| `Reconciler.Reconciler.StopInstances` | pkg/actuators/machine/instances.go:666-713 | one describe, then one stop of exactly the IDs seen running |
| `Reconciler.Reconciler.StopAndDelete` | pkg/actuators/machine/reconciler.go:212-273 | stop, annotate, wait, delete, in this order, each only after the one before succeeded |
| `Reconciler.Reconciler.Delete` | pkg/actuators/machine/reconciler.go:195-274 | its calls, the object it leaves and its result are those of `DeleteCalls` |
| `Operations.PresenceIsRight` | pkg/actuators/machine/reconciler.go:277-303 | Exists is true if and only if the answer for the recorded ID is one live instance or some tagged record is live (an ID and one of the five states), in spite of the aliasing |
| `Operations.ExistsAndUpdateAgree` | pkg/actuators/machine/reconciler.go:124-153 | on the same answers and clock: true if and only if Update picks an instance, the short requeue together, false if and only if Update clears the identity and asks for the long requeue, every other failure shared |
| `Operations.RunningIdsAre` | pkg/actuators/machine/instances.go:685-691 | the IDs to stop are exactly those of the records seen running |
| `Operations.AnnotatedIs` | pkg/actuators/machine/reconciler.go:227-231 | a stop leaves the reported state in the annotation when it concerns one instance with code 200, and changes nothing else |
| `Operations.DeleteIsSafe` | pkg/actuators/machine/reconciler.go:195-274 | every deletion names exactly the listed IDs and directly follows a poll that saw all of them stopped (and distinct) or saw none; every stop names exactly the IDs its describe saw running; nothing else changes the cloud |
| `Operations.DeleteIsBounded` | pkg/actuators/machine/reconciler.go:195-274 | whatever the cloud answers, Delete ends after at most two lookups and 184 more calls |
| `Operations.SeveralInstancesAreNeverSeenStopped` | pkg/actuators/machine/reconciler.go:233-274 | with more than one listed entry a deletion can only follow an empty poll, because the aliased entries repeat one ID |
| `Operations.CreateIsCoherent` | pkg/actuators/machine/reconciler.go:52-72 | after a successful Create, provider ID and status name the one new, running instance |
| `Operations.UpdateIsCoherentIff` | pkg/actuators/machine/reconciler.go:97-122 | after an Update that picked an instance, provider ID and status name it if and only if the tag correction did not fail or the status named it before |
| `Operations.IncoherentUpdate` | pkg/actuators/machine/reconciler.go:104-114 | a concrete Update whose failed correction leaves a provider ID without an instance in the status |
| `Outcomes.LookupIs` | pkg/actuators/machine/reconciler.go:355-367 | a lookup ends in one of three ways, told by its calls and answers: it fails, it shows nothing live, or it leads to one instance (the recorded one, else the last record of a tag answer with a live one); the list repeats that instance once for each live record |
| `Outcomes.ExistsIs` | pkg/actuators/machine/reconciler.go:277-303 | each of the four answers of Exists if and only if its case: true when the lookup leads to an instance; the 20-second requeue when nothing is live but the provider ID is set and the update time is missing or less than 20 seconds old; false when it is not; another error when the lookup fails |
| `Outcomes.UpdateWithoutInstance` | pkg/actuators/machine/reconciler.go:124-153 | Update on an invalid machine, a failed lookup, or nothing live: its error, the 20 or 180-second requeue, and when exactly the recorded instance is forgotten |
| `Outcomes.UpdateOfInstance` | pkg/actuators/machine/reconciler.go:97-122 | Update of the instance that the lookup leads to: tags corrected if and only if one is missing; the main half of the object names it in any case, the status if the correction did not fail; then the result is the 20-second requeue if and only if it is Pending, and success otherwise |
| `Outcomes.LaunchRequestIs` | pkg/actuators/machine/instances.go:76-229 | every field of the launch request, told by the spec and the answers: one instance, an available image, the groups of each reference in order, the vswitch, the resource group, the tags, the tenancy |
| `Outcomes.CreateIs` | pkg/actuators/machine/reconciler.go:52-94 | a launch follows if and only if the machine is valid, the user data is there, the spec can launch and every lookup was useful; success if and only if a poll shows the one new instance running; a failure has exactly one of four reasons and leaves the object without a recorded instance |
| `Outcomes.DeleteWithoutInstance` | pkg/actuators/machine/reconciler.go:195-214 | Delete fails with the lookup, and succeeds without a further call when nothing is live |
| `Outcomes.DeleteIs` | pkg/actuators/machine/reconciler.go:216-274 | a non-empty describe is followed by the stop of exactly the running ones, an accepted stop by polls, the first poll that makes it safe at once by the deletion of exactly the listed IDs; success if and only if that was accepted; a failure has exactly one of five reasons, the last one that 900 seconds passed without a safe poll |
| `Fixpoint.SetTwice` | pkg/actuators/machine/utils.go:93-109 | setting a condition again, at any later time, changes nothing |
| `Fixpoint.SecondLookup` | pkg/actuators/machine/reconciler.go:355-367 | after a completed Update the instance is found again, by ID when its state is supported |
| `Fixpoint.UpdateIsFixpoint` | pkg/actuators/machine/reconciler.go:97-169 | for a valid machine with a name, a second Update against the cloud as the first left it picks the same instance by ID, changes nothing in the cloud or in the whole object, and returns the same, however much later |
| `Fixpoint.NamelessNeverSettles` | pkg/actuators/machine/instances.go:786-799 | with an empty name, every Update that picks an instance tags it again |
| `Runs.RunInvariants` | pkg/actuators/machine/machine_scope.go:155-176 | in every run name and cluster stay, and the condition list is empty or the single successful creation |
| `Runs.ProviderIDStays` | pkg/actuators/machine/reconciler.go:306-321 | in every run, a provider ID that is once set is never empty again |
| `Runs.SuccessIsCoherent` | pkg/actuators/machine/reconciler.go:52-122 | in every run, each successful Create or Update leaves an object that names the instance it made or picked |
| `Runs.RunsDeleteSafely` | pkg/actuators/machine/reconciler.go:233-270 | in the log of every run, each DeleteInstances directly follows a describe of the same IDs that saw all of them stopped or none at all |
| `Runs.RunsDeletePromptly` | pkg/actuators/machine/reconciler.go:241-263 | in the log of every run, a poll of a Delete that makes the deletion safe is directly followed by the deletion of the polled IDs |
| `SingleInstance.DisciplineKeepsOne` | pkg/actuators/machine/instances.go:507-525 | in every history whose launches and corrections are disciplined, at most one live instance carries the lookup tags, and it is one that was launched |
| `SingleInstance.AbsenceIsReal` | pkg/actuators/machine/instances.go:247-251 | a tag lookup that shows nothing, after launches have settled and with a lag of at most the pause, proves that no launched instance is left |
| `SingleInstance.PickedIsOurs` | pkg/actuators/machine/reconciler.go:124-169 | the instance that an Update picks, and may tag, is one this machine launched |
| `SingleInstance.LaunchIsDisciplined` | pkg/actuators/machine/instances.go:230-265 | what follows a launch keeps the discipline, and the launch has settled by its first poll |
| `SingleInstance.StepKeeps` | pkg/actuators/machine/reconciler.go:51-303 | every operation of a controlled run keeps the discipline, the settling of launches, and the ownership of the recorded instance |
| `SingleInstance.AtMostOneInstance` | pkg/actuators/machine/reconciler.go:277-303 | in every controlled run and every admissible history with a lag of at most five seconds, no moment has two live instances with the machine's tags |
| `LagBound.LagBeyondPause` | pkg/actuators/machine/instances.go:247-251 | for every larger lag, a concrete controlled run of Exists, Create, Exists, Create, with the object not stored in between, that ends with two |
| `LagBound.LaunchIsPossible` | pkg/actuators/machine/reconciler.go:52-72 | for every lag, a controlled run against an admissible history that launches an instance, so the guarantee is not an empty one |
| `LagBound.OneInstanceIffLagWithinPause` | pkg/actuators/machine/instances.go:247-251 | two instances are reachable if and only if the lag exceeds the pause |
| `Controller.ReconcileOnce` | vendor/github.com/openshift/machine-api-operator/pkg/controller/machine/controller.go:287-385 | Exists, then, unless the round ends there, Update if and only if it said yes or Create if and only if it said no, on the reconciler class; extends a controlled run whose calls are the client's log |
| `Controller.DeleteOnce` | vendor/github.com/openshift/machine-api-operator/pkg/controller/machine/controller.go:239-250 | Delete on the reconciler class extends a controlled run |
| `Controller.Drive` | pkg/actuators/machine/actuator.go:86-200 | any sequence of rounds, each adding one or two operations, with either patch failing at any time, is a controlled run, so the theorems of Runs and SingleInstance apply to the class |
| `JsonPatch.SameIsEqual` | pkg/actuators/machine/machine_scope.go:94 | a computed patch leaves a field out if and only if its two versions are equal |
| `JsonPatch.PatchLosesNothing` | pkg/actuators/machine/machine_scope.go:112-124 | one patch, applied to any stored object: untouched paths keep the stored value, changed and removed ones end as the actuator left them |
| `JsonPatch.RoundTripIff` | pkg/actuators/machine/machine_scope.go:94 | patching the old version with the difference yields the new one if and only if the new one adds or changes no null field |
| `JsonPatch.MergeIsIdempotent` | pkg/actuators/machine/machine_scope.go:112-124 | applying a merge patch again changes nothing |
| `JsonPatch.MergeIsAbsorbed` | pkg/actuators/machine/machine_scope.go:112-124 | a document without nulls absorbs any patch that leads to it |
| `PatchMachine.Scope.PatchMachine` | pkg/actuators/machine/machine_scope.go:101-127 | the main patch is always sent, the status patch if and only if the main one was answered, each with the difference to the snapshot; it succeeds if and only if both were answered; what is stored in each of the three cases |
| `PatchMachine.TwoPhasePatchLosesNothing` | pkg/actuators/machine/machine_scope.go:101-127 | in both halves, at every path: concurrent changes survive where the actuator changed nothing, and the actuator's changes are stored |
| `PatchMachine.AloneStoresAll` | pkg/actuators/machine/machine_scope.go:101-127 | without concurrent changes the server ends with the actuator's object if and only if a merge patch can express the difference |
| `PatchMachine.PatchAgain` | pkg/actuators/machine/machine_scope.go:101-127 | patching the result again changes nothing, whatever others had stored before |
| `Credentials.MoveKeepsLock` | pkg/client/client.go:656-665 | every step keeps: the lock is held by the one caller between locking and unlocking, and the variable is set only in between |
| `Credentials.MoveKeepsFiles` | pkg/client/client.go:645-655 | every step keeps: each temporary file has exactly one owner, and an owner that has written finds its secret in it |
| `Credentials.CredentialsAreIsolated` | pkg/client/client.go:640-666 | under every interleaving of any number of callers: whoever resolves the profile reads its own, still existing file, and every later caller has read its own secret; the variable is unset whenever the lock is free; no file outlives its caller |
| `Credentials.MovesAdvance` | pkg/client/client.go:640-666 | every step brings a caller nearer to its end, of at most nine steps, and moves no other |
| `Credentials.NeverStuck` | pkg/client/client.go:656-665 | no deadlock at any moment: an unfinished caller can take a step, or waits for the lock whose holder can |
| `Credentials.FetchAlone` | pkg/client/client.go:640-666 | with the lock free, a caller with a secret can go through to its end in nine steps; it has then read its secret, and lock, variable and files are as before |

## Left out

- The forwarding methods, client construction and the mock of pkg/client: they only pass calls on.
- The machine set controller, manager start-up, events, metrics, logging and version strings: no hard property.
- YAML and JSON encoding of provider spec and status: both are decoded values here. The reconciler works on a
  typed machine object, the patch modules on a JSON document; the encoding between the two is not modelled.
- `time.ParseInLocation` and `net.ParseIP`: any partial functions.
- `sort.Sort`: an insertion sort on the same Less and Swap stands in for it. `Newest.FirstOfSortedIsNewest`
  holds for every sorted permutation, so the result does not depend on the algorithm.
- Pointers beyond the collecting loops: their lists are dereferenced into values as soon as they are collected.
- Disks, bandwidth, names and user data in the run request: plain copying. Fetching the user data is given as
  its result.
- Nil responses without an error, in runInstances and stopInstances: the client contract has no such answer.
- A successful deletion is only accepted by the cloud; the source does not wait for the release either.
- The text of error messages, except the one stored into a condition, which is a parameter of the proofs.
- `Actuator` wraps reconciler errors into machine errors and sends events; requeues are stated of the reconciler.
- Polling.WaitForResult: a negative timeout, which waits forever in the source, is not an input; no caller of
  the source passes one. The delay is positive, as in the only caller.
- Conditions.SetMachineProviderCondition: one clock reading stands for the two that the source takes within
  one call.
- Reconciler.Reconciler.Delete: the annotations must not be nil, because the source writes to that map without
  making it first.
- Reconciler.Reconciler.UpdateMachine: states the choice as the first entry of the list; that it is a newest
  one is `Newest.SelectNewest`, and the two agree because the list repeats one record.
- Newest.SortInstances: promises an order only when no malformed start time sits beside two different ones;
  `Newest.WeaklyOrderedIff` shows that without this the order is not consistent.
- Fixpoint.UpdateIsFixpoint: needs a machine with a name, since an empty one never settles
  (`Fixpoint.NamelessNeverSettles`), and a cloud that holds still between the two updates.
- SingleInstance.AtMostOneInstance: assumes that nobody else makes an instance carry the machine's lookup tags,
  that every existing instance has an ID and is in one of the five states, that a successful RunInstances creates one instance, that released
  IDs do not return, and that a launched instance shows the tags of its request. A crash of the controller
  between a launch and the end of its pause is not modelled.
- Controller.Drive: the phases, finalizers, draining and hooks of the machine controller are free choices of
  when a round stops, so the runs include more than the real ones. The update time and the annotations also
  belong to others; the update time is arbitrary between operations.
- PatchMachine.TwoPhasePatchLosesNothing: other writers act before the two patches, not between them; resource
  versions and conflicts are not modelled, since a merge patch carries none.
- Credentials.CredentialsAreIsolated: what the provider parses out of a file is not modelled, only which file
  it reads.
- Pagination of DescribeInstances: an answer is the whole answer.
