# DualSteer: a verified model

DualSteer steers one MPTCP connection over two legs. An operator's policy travels from a PCF
through an SMF to an agent; the agent observes MPTCP path manager events, plans which endpoint
pairs belong to which leg, and writes two kernel maps; a scheduler reads those maps, entry by
entry and at any time, and picks a subflow for every transmission. This project models that
chain in Dafny and proves what each part keeps over every run and what the parts guarantee
together. `dafny verify dfyconfig.toml` checks all of it.

## How the model is built

| file | what it models |
|---|---|
| `Words.dfy`, `Events.dfy` | machine words, addresses, path manager events |
| `Maps.dfy` | the two kernel maps as a store that may refuse any single operation |
| `Live.dfy` | the two-map transaction: stage, commit, clean up, roll back; removal |
| `Interleaving.dfy` | what a reader sees between the individual writes |
| `Selection.dfy`, `Fairness.dfy`, `Hysteresis.dfy` | the selection kernel and its runs |
| `Scheduler.dfy`, `Shares.dfy`, `Stability.dfy` | one scheduler call: scan, selection, fallback; runs of calls in either mode |
| `ControlPlane.dfy`, `Planning.dfy`, `ConnectionUpdate.dfy` | assignments, plans, one connection's update |
| `AgentState.dfy`, `AgentSteps.dfy`, `AgentOperations.dfy`, `Replay.dfy` | the agent's state, its invariant, its steps |
| `Runs.dfy`, `Daemon.dfy`, `Convergence.dfy` | runs of the agent; the agent as a class; independence of arrival order |
| `Delivery.dfy`, `Smf.dfy` | the SMF and its deliveries to the agent |
| `Service.dfy`, `Steering.dfy` | what each connection gets, on fields alone; results across the whole chain |
| `Netlink.dfy`, `EventDecoding.dfy` | the attribute codec and event decoding |

The code that updates state in place is modelled by classes and methods with loops
(`MapStore`, `Daemon`, `Server`, `Selector`, `SocketStorage`, `ApplyLive`, `Scan`, ...), each
proved against functions and predicates on values; the results over runs are lemmas about those,
and lemmas named `...OnFields`, `...Exactly` and the like say what those functions mean without
using them.
Map iteration takes its keys in an arbitrary order. A store operation succeeds, finds nothing, or
is refused without effect, chosen freely at every call; the ghost counter `faults` counts the
refusals, so "without a refused store operation" reads `faults == old(faults)`. The ghost
`history` of a store holds its content after every single write. On the wire between SMF and agent
each request or reply may be lost. An agent's `Valid()` is its invariant; `AgentDaemon.Run` and
`SmfServer.Run` show that every run of operations stays inside it.

Assumptions: one writer for the maps; a namespace that starts empty and has a nonzero inode (the
daemon refuses to start otherwise); a fixed assignment of addresses to interfaces. Nothing is
assumed of interface names. The two validators of them differ: a name that begins with an em space,
say, is admitted by the control plane and refused by every live transaction. The target of such an
assignment is to hold nothing, every reconcile with both legs observed reports an error, and
`Planning.BoundExactly` says that this is exactly where an admitted assignment stays unbound.

## Main results

* **Self-healing.** From every reachable state, one reconcile in which no store operation is
  refused makes the namespace's part of the maps equal a declarative target that mentions neither
  owners, errors nor history (`AgentState.AtTarget` in `AgentDaemon.Daemon.ReconcileLocked`), and
  `Service.TargetServes` says on the fields of assignments, events and entries what that gives to
  each connection. A reconcile that returns no error has reached it; without refusals an error is
  reported exactly if some connection cannot be planned; each refused operation spoils at most one
  connection; and at the target not a single write is made.
* **No leaks, no stale generations, sound readiness** in every reachable state
  (`AgentState.NoLeaks`, `AgentState.NeverStale`, `AgentOperations.ReadyIsSound`).
* **Provenance at every moment.** Over every run, each content a reader could ever meet, in the
  middle of an update or a removal too, holds for a connection only what the context it matched at
  that moment justifies: each path was reported in an opening of the connection with its leg's
  address, each policy derived from an assignment accepted for the context (`AgentDaemon.Run`,
  `AgentRuns.EveryPathEver`, `AgentRuns.EveryPolicyEver`).
* **Order independence.** Contexts and the replay of the events determine the maps after a
  reconcile that returns no error; whole runs that bring the same assignments and events in another
  order end with the same maps (`Convergence.OrderIndependence`, `Convergence.SwappedReplay`,
  `Convergence.SameOutcome`).
* **Atomic switch and no mixed plans.** After every single write a reader's binding is part of the
  old one or exactly the new one, under an exact condition; a scheduler pass spread over any of the
  writes classifies by one generation's plan only (`Interleaving.AtomicSwitch`,
  `Scheduler.PassUsesOnePlan`).
* **Exact fairness.** Closed form, windows, no starvation, over any history of the socket
  (`Fairness.ClosedForm`, `Fairness.Window`, `Fairness.NoStarvation`).
* **Anti-flapping.** k switches cost at least 2 (delta + 1) (k - 1) of RTT variation, over the
  kernel's samples and over whole scheduler calls, outages of both legs included
  (`Hysteresis.AntiFlapping`, `Hysteresis.SurvivesOutage`, `Stability.TakeRttTurns`).
* **Delivery.** SMF and agent never disagree on a specification, generations stay ordered, and the
  agent never refuses an SMF assignment as outdated; an acknowledged one is in the maps as far as
  the observations allow; what is due is delivered whether or not the PCF answers
  (`Delivery.GenerationsOrdered`, `Delivery.NeverRefusedAsOutdated`, `SmfServer.Server.Exchange`,
  `SmfServer.Server.ReconcileOne`).
* **Codec.** The parser accepts exactly the padded attribute sequences with distinct types, in any
  order, and decoding inverts the kernel's event layout (`Netlink.AcceptsExactly`,
  `EventDecoding.EventRoundTrip`).
* **End to end.** What the SMF's record calls a leg is charged as that leg, and over whole scheduler
  calls the configured weights are the shares (`Steering.RecordedLegIsCharged`,
  `Steering.ChosenIsOnItsLeg`, `Steering.ShareFollowsAssignment`).

## Model

| member | source | states |
|---|---|---|
| Maps.MapStore.LookupPolicy | dualsteer-agent/maps.go:25 | a lookup finds the entry, reports absence, or is refused |
| Maps.MapStore.ListPaths | dualsteer-agent/maps.go:28 | listing yields exactly the connection's paths or is refused |
| Maps.MapStore.UpdatePolicy | dualsteer-agent/maps.go:26 | one atomic replacement, or a refusal without effect |
| Maps.MapStore.DeletePolicy | dualsteer-agent/maps.go:27 | one atomic removal, absence, or a refusal without effect |
| Maps.MapStore.UpdatePath | dualsteer-agent/maps.go:29 | one atomic replacement, or a refusal without effect |
| Maps.MapStore.DeletePath | dualsteer-agent/maps.go:30 | one atomic removal, absence, or a refusal without effect |
| Live.DesiredPaths | dualsteer-agent/live.go:34-48 | fails exactly when a leg has no endpoint, otherwise one entry per endpoint with the plan's generation and the leg's index |
| Live.DesiredOnFields | dualsteer-agent/live.go:34-48 | the desired paths are the IDs of both legs' endpoints at the policy's generation, leg B's marked 1 and the others 0 |
| Live.ConfigRefusedExactly | dualsteer-agent/config.go:62-108 | a policy is refused exactly for a zero generation, an unknown mode, weights not totalling 100, equal, empty or untrimmed names, IDs above 255, or a repeated pair |
| Live.SpaceIsWhiteSpace | dualsteer-agent/config.go:77 | the white space that names are trimmed of, by code point |
| Live.Stage | dualsteer-agent/live.go:91-96 | every content on the way has the old policies and per path the old or the desired value; success means all desired paths are in place |
| Live.Restore | dualsteer-agent/live.go:78-84 | one undo write puts one path back as it was or changes nothing |
| Live.Rollback | dualsteer-agent/live.go:76-90 | with no undo write refused the whole store is what it was; each refused one leaves at most one path different, under the old policies |
| Live.DeletePaths | dualsteer-agent/live.go:101-107 | removes the given paths, going on after refusals; exactly as many are left as deletions were refused |
| Live.Cleanup | dualsteer-agent/live.go:100-111 | after the commit only stale paths vanish; without a refusal exactly the plan is left |
| Live.Transact | dualsteer-agent/live.go:75-111 | stage, commit, clean up or roll back, with the moment of the commit and the content after each write |
| Live.ApplyLive | dualsteer-agent/live.go:53-112 | applies only a valid policy that is strictly newer than the live one; when it refuses, that it refuses without writing; the trace of contents before and after the commit; exact rollback, and how much each refusal costs; only a refused store operation makes it fail |
| Live.DeleteLive | dualsteer-agent/live.go:116-131 | policy first, then paths, going on after refusals; success leaves nothing of the connection, and nothing else is ever touched |
| Interleaving.AtomicSwitch | dualsteer-agent/live.go:71-112 | through every single write a reader sees part of the old binding before the commit; from a commit on exactly the new one, if and only if no path outside the plan carried the new generation before the call |
| Interleaving.BindingWhileRemoving | dualsteer-agent/live.go:116-131 | from the first successful step of a removal on no path matches, at every moment |
| Interleaving.Writer | dualsteer-agent/live.go:53-131 | over any sequence of applies and deletes of any connections with one plan per generation of a connection, every content ever visible satisfies the connection's ledger |
| Interleaving.NoMixedPlans | bpf/dualsteer.bpf.c:137-179 | whatever a pass reads under the generation it snapshotted is that generation's plan entry |
| Selection.ChargeIsExact | include/dualsteer_select.h:113-121 | the 32-bit signed and unsigned credit arithmetic agrees with the integers |
| Selection.DecideKeepsCreditInv | include/dualsteer_select.h:65-125 | no decision breaks the credit invariant, for any policy, valid or not |
| Selection.PolicyValidOnFields | include/dualsteer_select.h:26-32 | which policies the kernel takes, field by field |
| Selection.DisabledLeavesNoTrace | include/dualsteer_select.h:74-75 | a disabled or invalid policy in between changes no later decision |
| Selection.OfferedOnFields | include/dualsteer_select.h:44-58 | a candidate gives way to a strictly lower measured RTT only, and the first one stays on a tie |
| Selection.Selector.Reset | include/dualsteer_select.h:34-42 | the state is forgotten |
| Selection.Selector.SelectRtt | include/dualsteer_select.h:87-101 | the in-place RTT decision computes the specified one; with no usable leg it changes nothing |
| Selection.Selector.SelectWrr | include/dualsteer_select.h:102-122 | the in-place weighted decision computes the specified one |
| Selection.Selector.Select | include/dualsteer_select.h:65-125 | the in-place kernel computes the specified decision |
| Fairness.ReachedKeepsCreditInv | include/dualsteer_select.h:34-122 | over any run of policies, outages, mode changes and rekeys the credits cancel, stay in [-50, 50) and vanish unless both legs are in the mask |
| Fairness.Conservation | include/dualsteer_select.h:102-124 | 100 times the picks of A equal n times its weight plus the credit carried in minus the credit carried out |
| Fairness.ClosedForm | include/dualsteer_select.h:102-124 | after n decisions from a reset A was picked floor((n * weightA + 50) / 100) times |
| Fairness.AfterOutage | include/dualsteer_select.h:106-110 | an outage of a leg leaves no debt: the closed form holds from there on |
| Fairness.Window | include/dualsteer_select.h:102-124 | any window of any run is off by less than one decision; 100 decisions are exact |
| Fairness.NoStarvation | include/dualsteer_select.h:102-124 | a leg of weight w is picked in any ceil(100 / w) consecutive decisions |
| Hysteresis.SettledDecision | include/dualsteer_select.h:92-101 | a chosen leg is left exactly for an improvement of more than delta; the unsigned difference does not wrap |
| Hysteresis.SurvivesOutage | include/dualsteer_select.h:87-101 | after any number of decisions without a usable leg, the last leg is left exactly for an improvement of more than delta |
| Hysteresis.FreshChoiceIsMinimum | include/dualsteer_select.h:78-92 | without a delta, or after a generation or mode change, the lower RTT wins whatever happened before |
| Hysteresis.AntiFlapping | include/dualsteer_select.h:87-123 | k switches after the first choice force a total variation of at least 2 (delta + 1) (k - 1) |
| Hysteresis.NoSwitchWithinDelta | include/dualsteer_select.h:93-101 | RTTs within delta of each other never cause a switch |
| Scheduler.Offer | include/dualsteer_select.h:44-58 | the in-place offer changes the leg's slot as specified and leaves the other alone |
| Scheduler.Consider | bpf/dualsteer.bpf.c:163-200 | one position is offered exactly when it is eligible, to the slot of its leg and backup flag |
| Scheduler.Scan | bpf/dualsteer.bpf.c:152-205 | the candidates are the best non-backups, or the best backups when no non-backup is active |
| Scheduler.SelectionRefines | bpf/dualsteer.bpf.c:152-208 | scan plus selection chooses an eligible subflow on a permitted leg, no backup while a non-backup is active, within delta of the minimum over all eligible ones; none exactly when there is none |
| Scheduler.ChoosableOnFields | bpf/dualsteer.bpf.c:152-205 | what may be chosen, field by field: among the first eight, present, active, writable, classified under the generation, of nonzero weight or measured, and a backup only without an active non-backup |
| Scheduler.DefaultsOnFields | bpf/dualsteer.bpf.c:123-147 | which calls are left to the default scheduler |
| Scheduler.KeyChangeForgets | bpf/dualsteer.bpf.c:127-134 | a socket whose connection key changed decides as a new one, and goes on as it was under the same key |
| Scheduler.Schedule | bpf/dualsteer.bpf.c:111-223 | when the call goes to the default scheduler and what state it leaves then; what the candidates and the chosen subflow satisfy; how the selection state and the stored key change, also on a key change |
| Scheduler.PassUsesOnePlan | bpf/dualsteer.bpf.c:137-201 | a pass interleaved with the agent's writes only chooses subflows classified by the plan of the generation it took its policy from |
| Scheduler.AcceptedPolicySteers | dualsteer-agent/maps.go:46-56 | every configuration the agent accepts becomes a policy the scheduler finds valid, and steers by unless disabled |
| ControlPlane.NameValidatorsDiffer | controlplane/protocol.go:80-82 | a concrete name that the control plane admits and the live transaction refuses, and one the other way round |
| ControlPlane.CanonicalIsTakenAs | dualsteer-agent/daemon.go:115-117 | an assignment is kept as it was sent, leg by leg, but that IPv4-mapped addresses become their last four octets |
| ControlPlane.ValidOnFields | controlplane/protocol.go:20-120 | which assignments are valid, field by field |
| ControlPlane.UnicastOnOctets | controlplane/protocol.go:64-70 | which addresses are unicast, on their octets |
| ControlPlane.LiveAcceptsExactly | dualsteer-agent/config.go:73-82 | of an admitted assignment and any endpoints a plan can have, the live transaction accepts the policy if and only if both interface names are free of surrounding white space |
| ControlPlane.NamesDisagreeExactly | controlplane/protocol.go:80-82 | an admitted name is refused exactly if it begins or ends with white space that the control plane does not look for |
| Planning.Plan | dualsteer-agent/daemon.go:274-316 | in any order of the subflows the plan fails exactly on contradictory observations and otherwise has each leg's endpoint set, disjoint and without duplicates |
| Planning.BoundExactly | dualsteer-agent/daemon.go:317-357 | an admitted assignment with consistent observations on both legs has its binding as the target if and only if both names pass the live validator |
| Service.TargetServes | dualsteer-agent/daemon.go:217-357 | at the target, said on fields alone: a connection opened to a context's flow from either of its legs, with subflows on both, has the assignment's policy and one path for the IDs of each subflow, marked 0 on leg A and 1 on leg B; any other has nothing |
| Service.EndpointsOnFields | dualsteer-agent/daemon.go:287-313 | the endpoints of a leg are the IDs of the subflows with its address |
| ConnectionUpdate.GatheredIsValid | dualsteer-agent/config.go:62-108 | a plan of an admitted assignment passes the live validation exactly if both names are trimmed |
| ConnectionUpdate.UpdateInPlace | dualsteer-agent/daemon.go:335-354 | at every moment each path is an old or a wanted one under an unchanged policy, and nothing goes before everything wanted is in place; success leaves exactly the wanted paths; no write at all if nothing differs |
| ConnectionUpdate.Bind | dualsteer-agent/daemon.go:327-356 | in place or as a transaction; never refused as stale; without a refused operation it fails exactly for an untrimmed name, and then writes nothing |
| ConnectionUpdate.ApplyConnection | dualsteer-agent/daemon.go:317-357 | success means the target; without a refused operation the target is reached in any case and there is an error exactly if the observations cannot be planned; no write at the target; what a reader may see at every moment |
| AgentState.NoLeaks | dualsteer-agent/daemon.go:217-270 | every entry of the namespace belongs to a tracked connection owned by an existing context |
| AgentState.NeverStale | dualsteer-agent/daemon.go:331-356 | a live policy that differs from the derived one is of an older generation |
| AgentState.EveryPathWasObserved | dualsteer-agent/daemon.go:287-313 | a path that can be seen at any moment, operations in progress included, has IDs that an accepted opening of the same connection reported with the address of the path's leg, in the one context that the connection matches |
| AgentState.EveryPolicyWasIssued | dualsteer-agent/daemon.go:274-275 | a policy that can be seen at any moment was derived from an assignment accepted for the context that the connection matches, and is not ahead of it |
| AgentState.StateIsAccounted | dualsteer-agent/daemon.go:217-270 | between operations everything the maps hold for a connection is justified by the context that its initial tuple matches |
| AgentSteps.EffectAccounted | dualsteer-agent/daemon.go:317-357 | so is every content in the middle of applying that context's assignment, whatever was refused |
| AgentSteps.RemovingAccounted | dualsteer-agent/live.go:116-131 | so is every content in the middle of a removal |
| AgentSteps.ReachedIsOwnTarget | dualsteer-agent/daemon.go:215-272 | the target reached is also that of the contexts and connections left, so a further reconcile starts at it |
| AgentSteps.ReconciledAtEnd | dualsteer-agent/daemon.go:215-272 | the whole reconcile: target reached without refusals, nothing closed or deleted left, observations and other namespaces untouched |
| AgentOperations.PutKeepsInv | dualsteer-agent/daemon.go:128-149 | storing an accepted assignment keeps the invariant of all reachable states |
| AgentOperations.VerdictOnFields | dualsteer-agent/daemon.go:111-148 | each reason for which an assignment is refused, and exactly when it is not |
| AgentOperations.RefusesOnFields | dualsteer-agent/daemon.go:181-208 | which events are refused, by number and field |
| AgentOperations.RecordedOnFields | dualsteer-agent/daemon.go:174-210 | what recording each kind of event changes, and that it changes nothing else |
| AgentOperations.AfterRefusalOnFields | dualsteer-agent/daemon.go:192-208 | which refused events leave a new initial tuple |
| AgentOperations.DeleteKeepsInv | dualsteer-agent/daemon.go:157-159 | marking a context for deletion keeps the invariant |
| AgentOperations.ObserveKeepsInv | dualsteer-agent/daemon.go:174-210 | recording an event keeps the invariant, its connection's owner included |
| AgentOperations.ObserveFollows | dualsteer-agent/daemon.go:175-210 | recording an event is one step of the replay |
| AgentOperations.RefusalKeeps | dualsteer-agent/daemon.go:192-207 | a refused event changes at most the initial tuple, to one of the same flow |
| AgentOperations.ReadyIsSound | dualsteer-agent/daemon.go:387-400 | a live policy of an owned, error-free connection means exactly the owner's current policy and the paths planned from the subflows recorded now, both legs present and disjoint |
| AgentDaemon.Daemon.constructor | dualsteer-agent/daemon.go:102-104 | an agent over an empty namespace is in a valid state |
| AgentDaemon.Daemon.FindOwner | dualsteer-agent/daemon.go:236-246 | finds a claiming context in any order; none exactly if the connection was not opened to the flow of an undeleted context from the address of either of its legs |
| AgentDaemon.Daemon.Remove | dualsteer-agent/daemon.go:220-235 | the iteration's removal branch, against the visit's specification |
| AgentDaemon.Daemon.Adopt | dualsteer-agent/daemon.go:250-255 | the iteration's applying branch, against the visit's specification |
| AgentDaemon.Daemon.ReconcileConnection | dualsteer-agent/daemon.go:217-256 | one iteration visits one connection, touches no other, writes nothing at the target, and every content on the way is accounted for |
| AgentDaemon.Daemon.ReconcileConnections | dualsteer-agent/daemon.go:217-256 | the loop over connections, in any order, going on after failures: no more connections miss their target than operations were refused |
| AgentDaemon.Daemon.Sweep | dualsteer-agent/daemon.go:257-270 | exactly the deleted contexts without connections go |
| AgentDaemon.Daemon.ReconcileLocked | dualsteer-agent/daemon.go:215-272 | self-healing: without a refused operation every connection has what the fields of assignments and events ask for, and an error is reported exactly if some claimed connection cannot be planned; each refused operation spoils at most one connection; no error means no refusal and no recorded error; no write at the target; every content on the way is accounted for |
| AgentDaemon.Daemon.Put | dualsteer-agent/daemon.go:110-151 | refused without effect exactly for the stated reasons; otherwise stored as it was sent but for the spelling of addresses, and reconciled towards; without an error the maps serve every connection |
| AgentDaemon.Daemon.Delete | dualsteer-agent/daemon.go:154-161 | the context is gone unless an operation was refused or an error reported |
| AgentDaemon.Daemon.Observe | dualsteer-agent/daemon.go:165-213 | exactly which events are recorded, ignored or refused; recorded ones survive every store failure; a refused one changes at most the initial tuple it names; a close is always taken and without a refusal forgets the connection |
| AgentDaemon.Daemon.Record | dualsteer-agent/daemon.go:174-210 | the in-place recording computes the specified state |
| AgentDaemon.Daemon.Retry | dualsteer-agent/daemon.go:214 | one reconcile from any reachable state: returning without an error means the maps are at the target |
| AgentDaemon.Daemon.Cleanup | dualsteer-agent/daemon.go:359-371 | without an error the namespace's part of the maps is empty; it goes on after refusals, and each leaves at most one connection |
| AgentDaemon.Daemon.BindingReady | dualsteer-agent/daemon.go:387-400 | ready is reported only of maps equal to the owner's current plan, and whenever the store answers, the generation is current and no error is recorded |
| AgentDaemon.Daemon.CleanIsReady | dualsteer-agent/daemon.go:387-400 | after a reconcile without an error every served connection that can be steered is owned by its context, without an error, and at the current generation |
| AgentDaemon.Daemon.Judge | dualsteer-agent/daemon.go:123-148 | the checks of Put, looking through the contexts in any order |
| AgentDaemon.Run | dualsteer-agent/daemon.go:110-427 | every run of operations, with any refusals, is told by its moments: each satisfies all invariants and follows from the one before by its operation, and each content ever visible is accounted for by the state its operation took up |
| AgentRuns.Continues | dualsteer-agent/daemon.go:110-427 | a run goes on by one operation: what held of its earlier moments and contents still holds |
| AgentRuns.EverySight | dualsteer-agent/daemon.go:110-427 | each content that became visible during a run did so during one operation and is accounted for by the valid state that operation took up |
| AgentRuns.EveryPathEver | dualsteer-agent/daemon.go:287-313 | over whole runs, every path entry ever in the maps was reported in an opening accepted by then with its leg's address, in the context its connection matched |
| AgentRuns.EveryPolicyEver | dualsteer-agent/daemon.go:274-275 | over whole runs, every policy ever in the maps was derived from an assignment accepted by then of the context its connection matched |
| Convergence.OrderIndependence | dualsteer-agent/daemon_test.go:48-110 | equal contexts and equally replaying journals end in equal maps |
| Convergence.SameMaps | dualsteer-agent/daemon_test.go:48-110 | two agents with equal contexts and alike journals whose retries return without an error have equal maps, except for connections already known to have lost an establishment |
| Convergence.SameOutcome | dualsteer-agent/daemon_test.go:48-110 | policy-first, events-first and subflow-first: two fresh agents that take the same assignments and events, in any interleaving and commuting order, with any refusals and retries on the way, have equal maps after a retry without an error |
| Convergence.SwappedReplay | dualsteer-agent/daemon_test.go:48-80 | swapping such events anywhere in the journal changes no connection's replay |
| Convergence.RearrangedReplay | dualsteer-agent/daemon_test.go:48-80 | so does any number of such swaps |
| Delivery.GenerationsOrdered | integration/free5gc/smf.patch:124-168 | applied, held and SMF generations are ordered, and equal generations mean equal assignments |
| Delivery.NeverRefusedAsOutdated | dualsteer-agent/daemon.go:128-148 | no SMF assignment is refused as invalid, stale, conflicting, changed or pending deletion |
| SmfServer.Server.Exchange | integration/free5gc/smf.patch:126-151 | with request or reply lost anywhere the sides stay coupled; acknowledged exactly if nothing is lost and the agent agrees; what the agent may refuse; an acknowledgement means that the agent's maps are at its target |
| SmfServer.Server.Deliver | integration/free5gc/smf.patch:126-160 | only an acknowledgement changes the SMF's record, and then the agent's maps are at its target |
| SmfServer.Server.NextGeneration | integration/free5gc/smf.patch:162-168 | generations increase by one and never wrap |
| SmfServer.Server.Create | integration/free5gc/smf.patch:181-219 | exactly when a request is bad, existing, conflicting or without a PCF answer; a new context takes the answer under a generation never used before and is created only with the maps at the target |
| SmfServer.Server.Remove | integration/free5gc/smf.patch:232-247 | gone means gone on both sides; otherwise the deletion stays pending |
| SmfServer.Server.ReconcileOne | integration/free5gc/smf.patch:253-284 | one context takes over the PCF's answer under the next generation if it differs; a delivery is attempted exactly if the context is being deleted, or unacknowledged at its resulting generation, or not recently delivered, unless no generation is left, also while the PCF does not answer |
| SmfServer.Server.Reconcile | integration/free5gc/smf.patch:250-285 | if every delivery is acknowledged and no generation missing, every remaining context is acknowledged at its generation, during a PCF outage too; if the PCF answers, with the policy it answered |
| SmfServer.Server.Release | integration/free5gc/smf.patch:289-301 | the deletion of every context is attempted, going on after failures; what is left is marked and as many as were not acknowledged; without an error neither side has a context left |
| SmfServer.Server.AgentStep | dualsteer-agent/daemon.go:165-214 | the agent's own steps keep the two sides coupled |
| SmfServer.Run | integration/free5gc/smf.patch:126-301 | every joint run keeps the sides coupled and generations growing |
| Steering.ChosenIsOnItsLeg | bpf/dualsteer.bpf.c:170-200 | a subflow the scheduler can choose was reported with the address of the leg it is charged to |
| Steering.RecordedLegIsCharged | integration/free5gc/smf.patch:181-219 | a chosen subflow with the address that the SMF's record gives to leg A is charged to leg A, with leg B's to leg B |
| Steering.ChosenWasObserved | bpf/dualsteer.bpf.c:170-200 | also in the middle of an update, a subflow the scheduler can choose was reported on the leg it is charged to, in the context its connection matches |
| Shares.TakeTurn | bpf/dualsteer.bpf.c:111-223 | one scheduler call with a subflow on each leg is one exact round of the credits and schedules a subflow of the round's leg; a call left to the default scheduler moves no credit |
| Shares.TakeTurns | bpf/dualsteer.bpf.c:111-223 | over any run of calls, reinjections and missing policies in between, the calls on leg A differ from their share by less than one, and 100 decided calls are exact |
| Stability.ChangesCost | include/dualsteer_select.h:87-123 | from any state of a socket, changes of leg over measured decisions are paid for by RTT variation, and there is none while the gap stays within delta after the first choice |
| Stability.TakeRttTurn | bpf/dualsteer.bpf.c:111-223 | one lowest-RTT call is one decision on the best RTTs of the two legs, and schedules a subflow of the leg decided; with no measured subflow on either leg no later decision notices it |
| Stability.TakeRttTurns | bpf/dualsteer.bpf.c:111-223 | over any run of calls in one lowest-RTT generation, outages of both legs in between, k changes of leg force the gap of the legs' best RTTs to travel at least 2 (delta + 1) (k - 1); no change while it stays within delta |
| Steering.ShareFollowsAssignment | bpf/dualsteer.bpf.c:111-223 | over any run of scheduler calls under an assignment's policy the calls on each leg are off by less than one from its weight, and 100 are exact |
| Steering.MarginBoundsFlapping | bpf/dualsteer.bpf.c:111-223 | over any run of scheduler calls under a lowest-RTT assignment's policy its margin bounds how often the leg changes |
| Netlink.NetlinkAttrs | dualsteer-agent/pm_linux.go:35-53 | the loop computes the specified parse |
| Netlink.ParseJoin | dualsteer-agent/pm_linux.go:35-53 | a sequence of attributes parses exactly when its masked types are distinct, and to exactly those attributes |
| Netlink.AcceptsExactly | dualsteer-agent/pm_linux.go:35-53 | the parser accepts exactly the sequences of attributes, each filled with fewer than four octets up to a multiple of four, with distinct masked types |
| Netlink.KernelAttributes | dualsteer-agent/pm_linux.go:35-53 | two attributes as the kernel sends them, in either byte order |
| Netlink.WordsByOctet | dualsteer-agent/pm_linux.go:41-46 | words by their octets in either byte order |
| Netlink.OrderIndependent | dualsteer-agent/pm_linux.go:35-53 | permuting the attributes does not change the parse |
| Netlink.EncodeAttr | dualsteer-agent/pm_linux.go:141-147 | the buffer is the attribute with native length, cut to sixteen bits, and type, the payload and fewer than four zero octets up to a multiple of four |
| Netlink.WrittenReadsBackExactly | dualsteer-agent/pm_linux_test.go:20-40 | an attribute the agent writes is read back as itself if and only if its length fits the length field |
| EventDecoding.Fields | dualsteer-agent/pm_linux.go:77-138 | yields the event the attributes lay out, or none if they lay out none |
| EventDecoding.DecodePMEvent | dualsteer-agent/pm_linux.go:57-139 | yields the event the payload carries, and fails only if it carries none |
| EventDecoding.ReadsIsLaysOut | dualsteer-agent/pm_linux_test.go:17-40 | reading the fields is the inverse of laying them out |
| EventDecoding.CarriesOne | dualsteer-agent/pm_linux.go:57-139 | a payload carries at most one event |
| EventDecoding.EventRoundTrip | dualsteer-agent/pm_linux_test.go:20-56 | every event decodes from its payload, for every attribute order |
| EventDecoding.KernelEvent | dualsteer-agent/pm_linux.go:57-139 | one event, octet by octet, as a little-endian kernel sends it |
| EventDecoding.FamiliesByNumber | dualsteer-agent/pm_linux.go:88-113 | the address families by number, with their attributes and sizes |
| Events.SameFlowExactly | dualsteer-agent/daemon.go:41-45 | subflows are told apart by addresses, ports and IDs, all six |

## Left out

- Interleaving.Writer: the writes are those of ApplyLive and DeleteLive; path updates in place under an unchanged generation are covered by the reconciler's results only.
- Planning.Plan: takes the recorded events as a set; two records with equal events would count once, which the plan does anyway.
- AgentDaemon.Daemon.BindingReady: the readiness of one binding; listing, sorting and the daemon-wide status are not modelled.
- Scheduler.Schedule: kernel helpers' answers, path lookups included, are inputs; the send window and the statistics map are not modelled.
- SmfServer.Server.Exchange: an agent that answers a DELETE with 404 is not modelled, as the agent's handler never does; HTTP encoding and status codes are reduced to acknowledged or not.
- Error texts: an error is present or absent; a recorded error is assumed to have a nonempty text.
- Optional fields of the YAML configuration: endpoints, weights and the enabled flag are always present, as they are in the daemon's plans.
- Text forms of addresses and JSON: addresses are their octets; a name is a sequence of Unicode scalar values.
- HTTP servers, sockets, timers, signal handling and process shutdown around the agent and the SMF; a request processed after its sender gave up; restarts of either process.
- Opening kernel maps, ABI sizes, the writers' lock, and other programs writing the maps.
- The PCF, the CLI, scripts and lab set-ups: no protocol logic of their own.
