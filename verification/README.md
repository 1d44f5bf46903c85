# A verified model of the hypervisor core

The hypervisor core (`hv-core`) is the decision logic of a hypervisor: no I/O, one thread, every
state change through one `apply` seam. Six subsystems sit behind it: page ownership and page-type
accounting, grant tables, event channels, the scheduler mechanism, device assignment, and domain
lifecycle with delegated control. Beside it, a fair-share policy drives the scheduler mechanism.
This project models both and proves, for any number of domains, frames, ports, grants, vCPUs, CPUs
and devices:

* **Whole-run safety.** From boot, every finite sequence of guest calls and interrupts, accepted or
  refused, keeps every subsystem's invariant and every invariant that joins subsystems
  (`HypervisorTheorems.WholeRunSafety`), and the imperative hypervisor follows that run step by
  step (`Hypervisors.Hypervisor.Apply`).
* **Exact reference accounting.** The four counts of a frame are at every boundary exactly its
  holders: page-table entries into it, entries of the table it is, its pin, and the grant mappings
  of it. So no release is ever refused and no holder is ever unbacked.
* **Total and exact teardown.** Destroying a domain cannot fail past the authority gate, and the
  step-by-step teardown equals a one-shot filter. Creating a domain and destroying it restores the
  whole hypervisor.
* **A delegation forest** with one root, held by the creator of the target's current incarnation;
  the cut-off walks of the code agree with the unbounded ancestor relation; revocation and death
  remove exactly the subtrees they should.
* **Page-walk isolation, no lost wakeup, confinement of authority.** What a domain's calls leave of
  one it does not control is stated exactly, entry by entry and right by right.
* **Reuse of domain slots:** a dead slot belongs to nobody and is named by nothing, and what its
  vCPUs carry over to the next tenant is stated field by field.
* **Conservation of CPU time** over whole runs of the hypervisor, deaths included.
* **The policy:** a proportional-fairness bound at every tick, a bounded wait, a fixpoint within the
  iteration cap, and useful preemption, with shares compared exactly by cross-multiplication; and
  for the documented latency bound, which the code does not always meet, exactly when it does.

## How it is built

Each component has two modules. A *model* module holds values and functions: the state as the
design means it, each call as a function from a state to a new state or an error, and lemmas. A
*class* module holds the component as the code runs it, fields updated in place, loops and rollbacks
included, and proves each method against the model's function.

| component | model | class |
|---|---|---|
| pages | `P2mModel`: no counts, entries as a map from (table, slot) | `P2m.System`: counts in every frame, a flat vector with reused slots |
| grants | `GrantModel`: no counts, mappings as a map from (grantee, handle) | `Grant.System`: counts in every entry, a flat vector with reused slots |
| events | `EvtchnModel` | `Evtchn.System` |
| scheduler | `SchedModel` | `Sched.System` |
| devices | `DeviceModel` | `Device.System` |
| control | `ControlModel` | in `Hypervisors.Hypervisor` |
| policy | `PolicyModel`, `Fairness`, `Latency`, `ZeroQuantum` | `Policies.Scheduler` |
| hypervisor | `HypervisorModel`, `HypervisorSafety`, `HypervisorTheorems`, `HypervisorAuthority`, `HypervisorTime`, `TeardownModel` | `Hypervisors.Hypervisor` |

In the models a refusal carries an error and no state, so "a refused call changes nothing" is a
statement about the classes: every method that returns an error is proved to leave the abstract
state as it was, the two-step rollbacks of `grant_map` and `link` included. The abstraction forgets
exactly what a rollback may leave behind: inactive vector slots, and the level field of a frame that
is no page table. `P2mModel.Page.loose` stands for references that no entry and no pin accounts for;
`HypervisorSafety.Backed` says they are exactly the grant mappings of the frame.

## Where the code and its comments differ

The model follows the code in each case.

**What a reused slot inherits.** `sched.rs:85-91` and `sched.rs:417-420` say an offline vCPU always
carries the default affinity mask, and `hypervisor.rs:1278-1282` that a dead slot leaves nothing to
clear. `set_affinity` (`sched.rs:319-335`) accepts an offline vCPU and `offline_all`
(`sched.rs:372-379`) skips offline vCPUs, so a narrowed mask outlives the domain and the next tenant
of the slot starts with it. `SchedModel.OfflineDefaultExactlyWhen` says exactly which calls break the
claim and `SchedModel.OfflineDefaultFails` gives one. Run time and the stamp of the last dispatch
outlive the domain too, online or not: taking a vCPU offline closes its interval and resets neither
(`sched.rs:341-362`, `sched.rs:535-541`), and run time ranks the vCPU in the policy.
`HypervisorTheorems.RebornInherits` says exactly what every vCPU of a reborn slot carries;
everything else of the slot is proved to belong to nobody.

**The latency bound.** `policy.rs:70-88` derives that a vCPU waits at most one turn of every other,
a turn of `j` costing `max(quantum, w_j * quantum / w_min + 1)` ticks, shared out over the CPUs, and
`hv-sim/src/scenario.rs:2484-2607` asserts it on a grid. On one CPU, for pools admitted together, it
is met by every pool of `n` vCPUs exactly when `n = 1`, or `n = 2` and the quantum is at least one
tick, or the quantum is one tick (`Latency.DocumentedBoundExactlyWhen`). With three vCPUs of weights
5, 6, 6 and a quantum of two the first waits seven ticks where six are documented, and the excess
grows with the quantum. The step that fails is the third: while one vCPU waits another may take two
turns. Pools of equal weights always meet it (`Latency.MetByEqualWeights`), and so does every vCPU
that is heavy enough (`Latency.MetByHeavyWaiter`). `Fairness.BoundedWait` is a bound that holds for
every pool of that setting.

**A quantum of zero.** `policy.rs:336-340` argues that at most one preemption happens per CPU and
pass, because a vCPU just dispatched is not preemptible, and `policy.rs:346-351` that the iteration
cap is far above what convergence needs. With a quantum of zero a vCPU just dispatched is
preemptible. Where affinity masks do not tell CPUs apart the pass still settles
(`PolicyModel.AdvanceSettles`); otherwise it need not, and `ZeroQuantum.CapIsNotEnough` is a pass of
nine vCPUs on five CPUs, on a machine that has run from boot, that spends its cap and leaves a CPU
idle with a vCPU waiting for it.

## Model

| member | source | states |
|---|---|---|
| HypervisorTheorems.WholeRunSafety | hv-core/src/hypervisor.rs:577-686 | From boot, for any sizes, every sequence of guest calls and interrupts by any caller, accepted or refused, ends in a state where all subsystem invariants and all joining invariants hold |
| HypervisorTheorems.ApplyKeepsInv | hv-core/src/hypervisor.rs:677-686 | One transition, accepted or refused, keeps all of them |
| HypervisorTheorems.RouteKeepsInv | hv-core/src/hypervisor.rs:688-868 | So does every guest call |
| HypervisorTheorems.RaiseKeepsInv | hv-core/src/hypervisor.rs:1174-1186 | So does an interrupt from outside, which a dead domain can never accept |
| HypervisorTheorems.ExactAccounting | hv-core/src/hypervisor.rs:1819-1858 | A frame's references are exactly its entries, the entries of the table it is, its pin and the mappings of it; likewise by kind, writable, executable and page-table; the total fits 32 bits |
| Hypervisors.Hypervisor.CountersAreExact | hv-core/src/hypervisor.rs:1819-1858 | In every valid state of the running system the four counters stored in each allocated frame equal the entries, table entries, pin and mappings that stand, each under its kind |
| HypervisorTheorems.WalkIsolation | hv-core/src/hypervisor.rs:1878-1891 | Every page walk has at most four entries, crosses into another domain's frame only under that domain's grant at matching permission, and a page it may write is nobody's table and nobody's code |
| HypervisorTheorems.RightsTraceToRoot | hv-core/src/hypervisor.rs:1917-1970 | Every right joins two distinct live domains and traces to the target's one root within as many steps as there are domains |
| HypervisorTheorems.RootOnlyByCreation | hv-core/src/hypervisor.rs:1284-1292 | A root right appears only by an accepted creation of its target by its holder |
| HypervisorTheorems.RootIsCreator | hv-core/src/hypervisor.rs:486-503 | After every run, the root of a target's tree is the creator of its current incarnation |
| HypervisorTheorems.TeardownIsExact | hv-core/src/hypervisor.rs:1379-1512 | A destroy removes exactly the frames, entries, grants, mappings, devices and ports that touch the target; every other port, grant, mapping, owner, pin, entry and device is, contents included, as before; peers' ports awaiting or linked to the target are free |
| HypervisorTheorems.CreateThenDestroy | hv-core/src/hypervisor.rs:1260-1293 | Destroying a domain just created restores the whole hypervisor exactly |
| HypervisorTheorems.DeadIsBlank | hv-core/src/hypervisor.rs:1757-1786 | A dead slot has no open port, grant either way, mapping, frame, device, privilege, right or online vCPU, and no port anywhere awaits it or is linked to it |
| HypervisorTheorems.StaysDead | hv-core/src/hypervisor.rs:688-702 | A dead slot stays dead and its vCPUs untouched under every transition but its own creation |
| HypervisorTheorems.StaysDeadThroughout | hv-core/src/hypervisor.rs:1491-1505 | Over every run without such a creation the slot stays dead and blank in the end, its vCPU row unchanged |
| HypervisorTheorems.RebornInherits | hv-core/src/sched.rs:341-379 | After a destroy and any continuation, a creation finds a slot that belongs to nobody; each vCPU is offline, with the run time of the death, an open interval closed, the old dispatch stamp, and the default mask if it was online at the death, its old mask otherwise |
| HypervisorTheorems.PlantedMask | hv-core/src/sched.rs:372-379 | Counterexample to a full reset: a creator can always plant a mask on an offline vCPU that the next tenant inherits |
| HypervisorTime.TimeIsConserved | hv-core/src/sched.rs:20-36 | From boot, over every run of the hypervisor whose clock never goes back, refusals, wakeups and destroyed domains included, the run time of all vCPUs together, open intervals included, never exceeds CPUs times elapsed time |
| HypervisorAuthority.NoControlNoEffect | hv-core/src/hypervisor.rs:1379-1394 | Whatever a domain calls, a live domain it does not control keeps life, privilege, frames, pins and devices; its grants, page-table entries, mappings and ports and all rights over it are exactly as before, but for what touches a domain an accepted destroy takes and for what a port linked to the caller, awaiting it or bound to a raised interrupt hears; at most a sleeping vCPU of it is woken |
| HypervisorAuthority.PrivilegeIsHandedDown | hv-core/src/hypervisor.rs:1269-1285 | The creation capability is held after a step only by one who held it before or was created in that step by a holder |
| HypervisorSafety.NewInv | hv-core/src/hypervisor.rs:612-645 | Boot satisfies every invariant |
| HypervisorSafety.EventKeepsInv | hv-core/src/hypervisor.rs:1152-1210 | Event operations with their wakeups keep every invariant |
| HypervisorSafety.EventKeepsWakeups | hv-core/src/hypervisor.rs:1859-1871 | Waking whoever the one newly deliverable event is for leaves no deliverable event to a blocked vCPU |
| HypervisorSafety.BlockKeepsInv | hv-core/src/hypervisor.rs:1221-1234 | Blocking keeps them: the vCPU that sleeps has no event waiting |
| HypervisorSafety.SchedKeepsInv | hv-core/src/hypervisor.rs:792-817 | So do the other scheduler calls |
| HypervisorSafety.GrantKeepsInv | hv-core/src/hypervisor.rs:764-778 | Issuing a grant keeps every invariant: no grant names a dead domain and no permission is withdrawn |
| HypervisorSafety.EndGrantKeepsInv | hv-core/src/hypervisor.rs:1131-1144 | Ending a grant keeps every invariant |
| HypervisorSafety.EndGrantKeepsLink | hv-core/src/hypervisor.rs:1131-1144 | A grant that a standing foreign entry may rest on cannot be ended |
| HypervisorSafety.MapGrantKeepsInv | hv-core/src/hypervisor.rs:875-916 | Mapping a grant keeps every invariant |
| HypervisorSafety.UnmapGrantKeepsInv | hv-core/src/hypervisor.rs:922-934 | Unmapping keeps every invariant |
| HypervisorSafety.MirrorNeverRefused | hv-core/src/hypervisor.rs:922-934 | The page reference a live mapping gives back is never refused, and every other mapping stays backed |
| HypervisorSafety.AddKeepsBacked | hv-core/src/hypervisor.rs:1846-1856 | A mapping recorded with its reference is backed, with all the others, exactly |
| HypervisorSafety.DropKeepsBacked | hv-core/src/hypervisor.rs:1846-1856 | A mapping dropped with its reference leaves the others backed, exactly |
| HypervisorSafety.MemoryKeepsInv | hv-core/src/hypervisor.rs:972-1007 | A guest's operations on its own pages keep every invariant: no mapped frame is freed, no foreign entry is unauthorized |
| HypervisorSafety.CreateKeepsInv | hv-core/src/hypervisor.rs:1260-1293 | Creation keeps every invariant |
| HypervisorSafety.DestroyTargetIsLive | hv-core/src/hypervisor.rs:1395-1404 | Past the authority gate the target of a destroy is live |
| HypervisorSafety.DestroyKeepsInv | hv-core/src/hypervisor.rs:1379-1512 | Destruction keeps every invariant |
| HypervisorSafety.DestroyedIsClean | hv-core/src/hypervisor.rs:1898-1916 | After it every dead domain, the target included, holds nothing and is named by nothing |
| HypervisorSafety.DelegateKeepsInv | hv-core/src/hypervisor.rs:1533-1570 | Delegation keeps every invariant |
| HypervisorSafety.RevokeKeepsInv | hv-core/src/hypervisor.rs:1596-1625 | Revocation keeps every invariant |
| HypervisorSafety.DeviceStepKeepsInv | hv-core/src/hypervisor.rs:1643-1692 | Device calls keep every invariant: no device is held by a dead domain |
| TeardownModel.NothingLeft | hv-core/src/hypervisor.rs:1457-1463 | When the frames are freed nothing refers to any of them |
| TeardownModel.PageSteps | hv-core/src/p2m.rs:991-1072 | Releases, severed foreign entries, cut own entries, dropped pins and freed frames together are the one-shot page teardown |
| TeardownModel.GrantSteps | hv-core/src/grant.rs:387-476 | Both drains and both revocations together are the one-shot grant teardown |
| Hypervisors.Hypervisor.constructor | hv-core/src/hypervisor.rs:612-645 | Builds the boot state |
| Hypervisors.Hypervisor.Apply | hv-core/src/hypervisor.rs:677-686 | One transition of the running system moves the abstract state as the model says and keeps it valid; a refusal changes nothing |
| Hypervisors.Hypervisor.Dispatch | hv-core/src/hypervisor.rs:688-868 | The liveness gate and the routing of every guest call |
| Hypervisors.Hypervisor.Event | hv-core/src/hypervisor.rs:1152-1210 | An event operation and the wakeup it causes |
| Hypervisors.Hypervisor.WakeIfDeliverable | hv-core/src/hypervisor.rs:1204-1210 | Wakes the target of a deliverable event if it sleeps |
| Hypervisors.Hypervisor.GuestEvent | hv-core/src/hypervisor.rs:715-762 | A guest's event call: dead invitees and missing vCPUs are refused |
| Hypervisors.Hypervisor.RaiseVcpuVirq | hv-core/src/hypervisor.rs:1174-1186 | An interrupt raised from outside, reporting deliverability |
| Hypervisors.Hypervisor.SchedOwn | hv-core/src/hypervisor.rs:792-817 | A guest schedules its own vCPUs |
| Hypervisors.Hypervisor.SchedBlock | hv-core/src/hypervisor.rs:1221-1234 | A vCPU with an event waiting is not put to sleep |
| Hypervisors.Hypervisor.SchedSetAffinity | hv-core/src/hypervisor.rs:1071-1089 | Affinity of one's own vCPUs or of a controlled domain's |
| Hypervisors.Hypervisor.MapGranted | hv-core/src/hypervisor.rs:875-916 | Mapping with rollback when the frame refuses the reference; a refusal leaves the abstract state unchanged |
| Hypervisors.Hypervisor.UnmapGranted | hv-core/src/hypervisor.rs:922-934 | Unmapping with its mirrored release |
| Hypervisors.Hypervisor.CopyGranted | hv-core/src/hypervisor.rs:1015-1031 | The copy permission check, stale grants refused |
| Hypervisors.Hypervisor.OfferGrant | hv-core/src/hypervisor.rs:764-778 | Issuing a grant, dead grantees refused |
| Hypervisors.Hypervisor.EndGranted | hv-core/src/hypervisor.rs:1131-1144 | Ending a grant, refused while its grantee's table maps the frame |
| Hypervisors.Hypervisor.Memory | hv-core/src/hypervisor.rs:972-1007 | Page calls; an entry onto a foreign frame needs a matching grant |
| Hypervisors.Hypervisor.Mirror | hv-core/src/hypervisor.rs:1420-1430 | One mirrored release, never refused |
| Hypervisors.Hypervisor.MirrorAll | hv-core/src/hypervisor.rs:1445-1455 | The releases of a finished drain, each still covered by a mapping not yet mirrored |
| Hypervisors.Hypervisor.Reclaim | hv-core/src/hypervisor.rs:1417-1475 | The memory part of a teardown equals the one-shot teardown of grants and pages |
| Hypervisors.Hypervisor.StripControls | hv-core/src/hypervisor.rs:1493-1497 | Clears the target's row and column |
| Hypervisors.Hypervisor.SweepOrphanedControlEdges | hv-core/src/hypervisor.rs:1730-1746 | The fixpoint loop terminates and leaves exactly the rooted rights |
| Hypervisors.Hypervisor.RemoveControls | hv-core/src/hypervisor.rs:1491-1505 | Row, column and everything delegated through the target is gone |
| Hypervisors.Hypervisor.DomainCreate | hv-core/src/hypervisor.rs:1260-1293 | Creation by a holder of the capability, of a dead slot |
| Hypervisors.Hypervisor.DomainDestroy | hv-core/src/hypervisor.rs:1379-1512 | Succeeds exactly when the target exists and the caller is it or controls it, and its result is the one-shot teardown |
| Hypervisors.Hypervisor.ControlGrant | hv-core/src/hypervisor.rs:1533-1570 | Delegation; an existing right keeps its provenance |
| Hypervisors.Hypervisor.ControlSubtreeContains | hv-core/src/hypervisor.rs:1706-1719 | The cut-off walk decides exactly whether the caller is on the node's chain |
| Hypervisors.Hypervisor.ControlRevoke | hv-core/src/hypervisor.rs:1596-1625 | Revocation within the caller's subtree, with its cascade |
| Hypervisors.Hypervisor.DeviceAssign | hv-core/src/hypervisor.rs:1643-1668 | Assignment needs control of the recipient |
| Hypervisors.Hypervisor.DeviceRelease | hv-core/src/hypervisor.rs:1674-1692 | Release of one's own device or a controlled domain's |
| ControlModel.BoundedWalkExact | hv-core/src/hypervisor.rs:1940-1970 | The checker's walk, cut off after as many steps as there are domains, accepts exactly the chains that reach a root |
| ControlModel.ChainIsSimple | hv-core/src/hypervisor.rs:1940-1970 | A rooted chain visits no holder twice |
| ControlModel.BoundedSubtreeExact | hv-core/src/hypervisor.rs:1706-1719 | The cut-off subtree check agrees with the unbounded ancestor relation |
| ControlModel.SweptIsRooted | hv-core/src/hypervisor.rs:1730-1746 | A sweep keeps exactly the rooted rights of a column |
| ControlModel.RevokeExact | hv-core/src/hypervisor.rs:1596-1625 | Dropping one holder and sweeping removes exactly the holders under it; survivors keep their delegators |
| ControlModel.RevokeMatrixExact | hv-core/src/hypervisor.rs:1596-1625 | Over the whole matrix a revocation changes exactly those cells |
| ControlModel.RemoveExact | hv-core/src/hypervisor.rs:1491-1505 | A death clears its row, its column and exactly the rights that came through it |
| ControlModel.CreateKeepsInv | hv-core/src/hypervisor.rs:1284-1292 | Creation roots an empty column |
| ControlModel.DelegateMatrixKeepsInv | hv-core/src/hypervisor.rs:1559-1569 | A fresh delegation hangs as a leaf: no cycle, no second root |
| ControlModel.OrphanWasUnrooted | hv-core/src/hypervisor.rs:1737-1742 | The sweep clears only rights that were unrooted from the start |
| ControlModel.SweepDone | hv-core/src/hypervisor.rs:1730-1746 | When a pass finds no orphan, exactly the unrooted rights are gone |
| ControlModel.ClearShrinks | hv-core/src/hypervisor.rs:1730-1746 | Every clearing leaves fewer rights, so the sweep ends |
| P2mModel.AcquireKeepsInv | hv-core/src/p2m.rs:450-590 | A granted reference keeps write-xor-table, write-xor-execute and the level discipline |
| P2mModel.ReleaseKeepsInv | hv-core/src/p2m.rs:524-690 | So does a returned one |
| P2mModel.AcquireThenRelease | hv-core/src/p2m.rs:557-690 | A reference taken and returned leaves no trace, the level included |
| P2mModel.LinkKeepsInv | hv-core/src/p2m.rs:836-926 | An accepted link keeps the discipline |
| P2mModel.LinkExact | hv-core/src/p2m.rs:836-926 | It adds exactly the entry asked for, execute cleared on an interior entry, and makes an untyped interior child a table one level down |
| P2mModel.LinkThenUnlink | hv-core/src/p2m.rs:929-976 | Unlinking undoes linking completely |
| P2mModel.UnlinkReleasesTable | hv-core/src/p2m.rs:952-960 | The first release of an unlink is never refused |
| P2mModel.UnlinkReleasesChild | hv-core/src/p2m.rs:961-974 | Nor is the second, and together they leave exactly the cut |
| P2mModel.CutKeepsInv | hv-core/src/p2m.rs:985-1041 | Removing any set of entries leaves every remaining entry backed and level-correct |
| P2mModel.PinKeepsInv | hv-core/src/p2m.rs:695-721 | Pinning keeps the discipline |
| P2mModel.PinThenUnpin | hv-core/src/p2m.rs:726-753 | A pin and its unpin cancel out |
| P2mModel.UnheldIsUntouched | hv-core/src/p2m.rs:755-775 | A frame with no reference is at neither end of any entry |
| P2mModel.FreeKeepsInv | hv-core/src/p2m.rs:759-775 | Freeing keeps the discipline |
| P2mModel.AllocateThenFree | hv-core/src/p2m.rs:413-437 | A frame just allocated can be given straight back |
| P2mModel.StepIsConfined | hv-core/src/p2m.rs:405-976 | A guest's own operation moves only its own frames, only while nothing outside holds them; on other domains' frames it keeps owners and pins and moves at most the references and level its own entry accounts for; it adds only the entry it names and removes only the entry of its own table an unlink names |
| P2mModel.WalkDescends | hv-core/src/p2m.rs:119-144 | Every walk descends one level an entry, visits no table twice, and ends in a leaf at the bottom level |
| P2mModel.WritableLeafIsData | hv-core/src/p2m.rs:1275-1331 | A frame under a writable leaf is no table, not pinned and not executable anywhere |
| P2mModel.TeardownExact | hv-core/src/p2m.rs:991-1072 | What a teardown leaves of each frame and of the entries |
| P2mModel.TeardownUnique | hv-core/src/p2m.rs:991-1072 | Any order of the teardown steps that keeps the discipline ends in the same state |
| P2m.ChildRefAgrees | hv-core/src/p2m.rs:232-244 | An entry's shape and level fix one reference, the same when taken and when returned; only an interior entry of a bottom table has none |
| P2m.GuardAgrees | hv-core/src/p2m.rs:456-505 | The acquire guard on counts is the guard on holders |
| P2m.CountsMove | hv-core/src/p2m.rs:371-392 | Counting one reference keeps every frame's counts equal to its holders |
| P2m.System.constructor | hv-core/src/p2m.rs:397-403 | All frames free |
| P2m.System.Allocate | hv-core/src/p2m.rs:413-437 | Allocates a free frame to an existing domain |
| P2m.System.Get | hv-core/src/p2m.rs:509-519 | Takes an existence reference, or the exact error and no change |
| P2m.System.Put | hv-core/src/p2m.rs:524-550 | Returns one; the accounting stays exact if and only if the call is refused or no entry or pin rests on the reference; otherwise it is accepted and leaves the count one short |
| P2m.System.GetType | hv-core/src/p2m.rs:557-590 | Takes a typed reference, stamping the level of the first table reference |
| P2m.System.PutType | hv-core/src/p2m.rs:596-630 | Returns a typed reference at its level, with the same condition |
| P2m.System.GetExec | hv-core/src/p2m.rs:639-659 | Takes an executable reference |
| P2m.System.PutExec | hv-core/src/p2m.rs:664-684 | Returns an executable reference, with the same condition |
| P2m.System.Pin | hv-core/src/p2m.rs:695-721 | Pins a table |
| P2m.System.Unpin | hv-core/src/p2m.rs:726-753 | Unpins it |
| P2m.System.Free | hv-core/src/p2m.rs:759-775 | Frees an unreferenced frame of the caller |
| P2m.System.Link | hv-core/src/p2m.rs:836-926 | Links an entry, every error in the code's order |
| P2m.System.Attach | hv-core/src/p2m.rs:876-926 | Takes both references, undoing the first if the second overflows |
| P2m.System.Unlink | hv-core/src/p2m.rs:934-976 | Unlinks an entry; neither release is refused |
| P2m.System.UnlinkAll | hv-core/src/p2m.rs:991-1001 | Removes exactly the entries of the owner's tables |
| P2m.System.UnlinkAllInto | hv-core/src/p2m.rs:1023-1046 | Removes exactly other domains' entries onto the owner's frames |
| P2m.System.UnpinAll | hv-core/src/p2m.rs:1049-1057 | Drops exactly the owner's pins |
| P2m.System.FreeAll | hv-core/src/p2m.rs:1064-1072 | Frees exactly the owner's frames that nothing refers to, and leaves the others as they were |
| P2m.System.LinkIndex | hv-core/src/p2m.rs:1397-1402 | Finds the one active slot of an entry |
| P2m.System.AllocLink | hv-core/src/p2m.rs:1404-1412 | Records an entry, growing the vector only when no slot is inactive |
| P2m.System.IsForeignLinkedBy | hv-core/src/p2m.rs:1226-1234 | Decides whether that other domain's table maps the frame |
| GrantModel.FirstUnused | hv-core/src/grant.rs:725-740 | The least handle not in use; the search passes at most as many numbers as there are live handles |
| GrantModel.HandlesArePrivate | hv-core/src/grant.rs:52-62 | A grantee's next handle depends on its own mappings only |
| GrantModel.MapKeepsInv | hv-core/src/grant.rs:235-271 | Mapping keeps every mapping over an active grant to its own grantee, at a permission it gives |
| GrantModel.MapThenUnmap | hv-core/src/grant.rs:277-308 | Unmapping undoes mapping and reports the frame and permission mapped |
| GrantModel.GrantThenEnd | hv-core/src/grant.rs:218-230 | Ending a grant just issued leaves no trace |
| GrantModel.EndAccessKeepsInv | hv-core/src/grant.rs:218-230 | Ending an unmapped grant strands no mapping |
| GrantModel.EntryChangeKeepsFrames | hv-core/src/grant.rs:191-230 | Issuing or ending a grant changes what no live mapping reaches |
| GrantModel.TeardownSurvivors | hv-core/src/grant.rs:387-476 | After a teardown exactly the mappings between two other domains survive, over the same frames |
| GrantModel.TeardownKeepsInv | hv-core/src/grant.rs:642-701 | And the tables are consistent |
| GrantModel.RevocationsWithdraw | hv-core/src/grant.rs:443-478 | The two revocations together end exactly the unmapped grants by or to the domain |
| Grant.CountsAgree | hv-core/src/grant.rs:322-349 | The counts after mapping and after unmapping are the numbers of mappings; the saturating release never saturates |
| Grant.System.constructor | hv-core/src/grant.rs:176-184 | All entries free |
| Grant.System.GrantAccess | hv-core/src/grant.rs:191-213 | Issues a grant |
| Grant.System.EndAccess | hv-core/src/grant.rs:218-230 | Ends one, refused while mapped |
| Grant.System.Map | hv-core/src/grant.rs:235-271 | Maps a grant, every error in the code's order |
| Grant.System.Unmap | hv-core/src/grant.rs:277-308 | Unmaps a handle |
| Grant.System.Copy | hv-core/src/grant.rs:354-377 | The permission check alone |
| Grant.System.AllocHandle | hv-core/src/grant.rs:725-754 | Terminates at the least unused handle and reuses an inactive slot when there is one |
| Grant.System.Authorizes | hv-core/src/grant.rs:522-533 | Decides whether a grantor offers a frame at a permission |
| Grant.System.DrainMapsOf | hv-core/src/grant.rs:387-400 | Releases exactly the grantee's mappings and reports each |
| Grant.System.DrainForeignMapsOf | hv-core/src/grant.rs:421-435 | Releases exactly others' mappings of the target's grants and reports each |
| Grant.System.RevokeAll | hv-core/src/grant.rs:443-450 | Ends exactly the grants a grantor offers that nobody has mapped |
| Grant.System.RevokeGrantsTo | hv-core/src/grant.rs:464-478 | Ends exactly the grants naming a grantee that it has not mapped |
| EvtchnModel.StepKeepsInv | hv-core/src/evtchn.rs:443-490 | Every operation keeps links mutual and never to themselves, free ports silent and interrupt bindings unique |
| EvtchnModel.StepIsDiscreet | hv-core/src/evtchn.rs:242-316 | An operation makes at most the notified port deliverable and opens nothing at, and no invitation to, a domain not involved |
| EvtchnModel.OthersHear | hv-core/src/evtchn.rs:152-316 | What an operation by another domain leaves of each port: a link hears a send and a close at its far end, an invitation becomes a link when it is taken up, an interrupt is heard on the port bound to it, and nothing else changes |
| EvtchnModel.ReserveThenClose | hv-core/src/evtchn.rs:141-238 | Closing a port just reserved undoes the reservation |
| EvtchnModel.BindThenClose | hv-core/src/evtchn.rs:152-238 | Closing a fresh link leaves the peer waiting as before |
| EvtchnModel.SendThenConsume | hv-core/src/evtchn.rs:242-316 | A send is seen by the peer exactly once and leaves the sender's port alone |
| EvtchnModel.TeardownExact | hv-core/src/evtchn.rs:325-357 | What a teardown leaves of each port |
| EvtchnModel.TeardownKeepsInv | hv-core/src/evtchn.rs:325-357 | It keeps the invariant, leaves the domain silent and makes nothing deliverable |
| Evtchn.System.constructor | hv-core/src/evtchn.rs:129-136 | All ports free |
| Evtchn.System.AllocUnbound | hv-core/src/evtchn.rs:141-148 | Opens a half-open port in the first free slot |
| Evtchn.System.BindInterdomain | hv-core/src/evtchn.rs:152-188 | Links to a port that awaits exactly the caller |
| Evtchn.System.BindVirq | hv-core/src/evtchn.rs:192-204 | Binds an interrupt once per vCPU |
| Evtchn.System.BindIpi | hv-core/src/evtchn.rs:207-212 | Binds a port for signalling oneself |
| Evtchn.System.Close | hv-core/src/evtchn.rs:217-238 | Frees a port and leaves its peer half-open |
| Evtchn.System.Send | hv-core/src/evtchn.rs:242-251 | Signals the peer or oneself |
| Evtchn.System.RaiseVirq | hv-core/src/evtchn.rs:281-293 | Signals the port an interrupt is bound to |
| Evtchn.System.SetMasked | hv-core/src/evtchn.rs:510-518 | Masks or unmasks a bound port |
| Evtchn.System.Consume | hv-core/src/evtchn.rs:307-316 | Clears and reports a signal |
| Evtchn.System.HasDeliverableFor | hv-core/src/evtchn.rs:394-397 | Decides whether an event waits for a vCPU |
| Evtchn.System.CloseAll | hv-core/src/evtchn.rs:325-332 | The loop over a table it mutates equals the one-shot close, loopback links included |
| Evtchn.System.ClearUnboundInto | hv-core/src/evtchn.rs:348-357 | Frees exactly the ports awaiting the target |
| DeviceModel.AssignExact | hv-core/src/device.rs:136-171 | Accepted exactly when nobody else holds the device; one holder after; release returns it to nobody |
| Device.System.Assign | hv-core/src/device.rs:136-152 | Assigns in place |
| Device.System.Release | hv-core/src/device.rs:159-171 | Releases in place |
| Device.System.ReleaseAllOf | hv-core/src/device.rs:183-189 | Releases exactly one holder's devices |
| SchedModel.StepKeepsInv | hv-core/src/sched.rs:474-511 | Running vCPUs and occupied CPUs stay in bijection, inside the affinity masks |
| SchedModel.OfflineAllKeepsInv | hv-core/src/sched.rs:372-379 | So after taking a whole domain offline |
| SchedModel.ConservationOfTime | hv-core/src/sched.rs:20-36 | Under a monotone clock, run time including open intervals never exceeds CPUs times elapsed time, over every history of transitions and deaths of domains |
| SchedModel.SetAffinityExact | hv-core/src/sched.rs:319-335 | The mask set admits exactly the real CPUs asked for |
| SchedModel.FullMaskPermits | hv-core/src/sched.rs:100-122 | The default mask admits exactly the real CPUs below 64 |
| SchedModel.OfflineDefaultExactlyWhen | hv-core/src/sched.rs:319-335 | The documented default mask of offline vCPUs is kept by exactly the calls that do not narrow one |
| SchedModel.OfflineDefaultFails | hv-core/src/sched.rs:85-91 | A call from boot that breaks it |
| SchedModel.OfflineAllMaskExactlyWhen | hv-core/src/sched.rs:372-379 | Teardown leaves the default mask exactly on vCPUs that were online or had it |
| Sched.System.constructor | hv-core/src/sched.rs:187-204 | All vCPUs offline with the default mask |
| Sched.System.Admit | hv-core/src/sched.rs:209-221 | Enacts the transition |
| Sched.System.Run | hv-core/src/sched.rs:226-258 | Enacts the transition, every error in the code's order |
| Sched.System.Preempt | hv-core/src/sched.rs:263-270 | Enacts the transition, closing the interval |
| Sched.System.Block | hv-core/src/sched.rs:275-288 | Enacts the transition |
| Sched.System.Wake | hv-core/src/sched.rs:291-300 | Enacts the transition |
| Sched.System.SetAffinity | hv-core/src/sched.rs:319-335 | Enacts the transition |
| Sched.System.TakeOffline | hv-core/src/sched.rs:341-362 | Enacts the transition, resetting the mask |
| Sched.System.TakeAllOffline | hv-core/src/sched.rs:372-379 | The loop equals the one-shot teardown |
| Sched.System.Account | hv-core/src/sched.rs:535-541 | Closes an interval with saturating arithmetic |
| PolicyModel.StrictWeakOrder | hv-core/src/policy.rs:620-622 | The ranking by service per weight is a strict weak order |
| PolicyModel.NextIsNeverRefused | hv-core/src/policy.rs:369-373 | The mechanism never refuses a decision of the policy |
| PolicyModel.NextIsCandidate | hv-core/src/policy.rs:316-328 | A decision names a vCPU and CPU that qualify |
| PolicyModel.IdleExactlyWhen | hv-core/src/policy.rs:283-328 | No decision is left exactly when no idle CPU has an affine runnable vCPU and no expired runner a strictly more deserving affine waiter |
| PolicyModel.BestUpToIsExtremal | hv-core/src/policy.rs:403-458 | The scans return an extremal candidate |
| PolicyModel.EnactKeepsExact | hv-core/src/policy.rs:491-501 | Enacting a decision changes no share at that instant |
| PolicyModel.PreemptionIsUseful | hv-core/src/policy.rs:433-483 | The decision after a preemption puts a strictly more deserving vCPU on the freed CPU, never the evicted one |
| PolicyModel.DecisionPaysDebt | hv-core/src/policy.rs:336-340 | With a quantum of at least one tick, every decision lowers by one a measure of twice the runners dispatched earlier plus the idle CPUs |
| PolicyModel.SettleReachesFixpoint | hv-core/src/policy.rs:341-390 | So, with such a quantum, the loop settles within two decisions a CPU |
| PolicyModel.DecisionPaysClaim | hv-core/src/policy.rs:336-340 | Whatever the quantum, where masks do not tell CPUs apart every decision lowers a measure of twice the runners due for eviction plus the idle CPUs |
| PolicyModel.SettleReachesFixpointInterchangeably | hv-core/src/policy.rs:341-390 | So there the loop settles within two decisions a CPU whatever the quantum |
| PolicyModel.OneCpuIsInterchangeable | hv-core/src/policy.rs:341-390 | One-CPU machines are of that kind whatever the masks |
| PolicyModel.AdvanceSettles | hv-core/src/policy.rs:341-390 | With a quantum of at least one tick, and with any quantum where masks do not tell CPUs apart, a pass reaches its fixpoint before its cap, enacts at most two decisions a CPU, and a second pass at the same instant does nothing |
| ZeroQuantum.CapIsNotEnough | hv-core/src/policy.rs:336-351 | Counterexample at a quantum of zero, on a machine some monotone run reaches from boot and with a policy as it is made: a pass that spends its whole cap, is not at a fixpoint, and leaves a CPU idle with an affine vCPU waiting |
| ZeroQuantum.StartIsReached | hv-core/src/sched.rs:209-335 | That machine is reached from boot by admitting nine vCPUs, running each for its share, setting masks and dispatching four, on a clock that never goes back |
| PolicyModel.AccountAt | hv-core/src/policy.rs:509-544 | What accounting does to each vCPU, whatever the visiting order |
| PolicyModel.WakePlacement | hv-core/src/policy.rs:503-544 | A vCPU that just entered the pool lands at the floor with integer division, less than a tick below it; every other keeps its offset |
| PolicyModel.FloorIsLeast | hv-core/src/policy.rs:509-530 | The floor is the least share in the established pool |
| Policies.Scheduler.BestPlacement | hv-core/src/policy.rs:403-431 | The nested scan returns the best placement |
| Policies.Scheduler.AffineWaiterBeats | hv-core/src/policy.rs:463-483 | Decides whether some affine waiter is strictly more deserving |
| Policies.Scheduler.BestPreemption | hv-core/src/policy.rs:433-458 | The scan returns the least deserving expired runner with such a waiter |
| Policies.Scheduler.Next | hv-core/src/policy.rs:316-328 | Computes the decision |
| Policies.Scheduler.Account | hv-core/src/policy.rs:509-544 | Accounts every vCPU in place |
| Policies.Scheduler.Advance | hv-core/src/policy.rs:341-390 | Drives the mechanism object as the model does and reports the number enacted |
| Policies.Scheduler.SetWeight | hv-core/src/policy.rs:257-266 | Sets a weight, at least one |
| Fairness.ProportionalFairness | hv-core/src/policy.rs:67-69 | On one CPU with continuously schedulable vCPUs admitted together, at every tick and for every pair, service per weight differs by at most one slack |
| Fairness.NeverIdle | hv-core/src/policy.rs:52-66 | In that setting the CPU is busy in every tick |
| Fairness.BoundedWait | hv-core/src/policy.rs:70-87 | On one CPU no vCPU waits longer than a budget computed from the weights and the quantum; it stands for every pool and quantum, where the documented formula does not |
| Latency.DocumentedBoundExactlyWhen | hv-core/src/policy.rs:70-87 | On one CPU the documented latency formula is met by every pool of n vCPUs if and only if n is 1, or n is 2 and the quantum is at least 1, or the quantum is 1 |
| Latency.MetAtOneTick | hv-core/src/policy.rs:80-87 | With a quantum of one tick every pool meets the formula |
| Latency.MetByTwo | hv-core/src/policy.rs:80-87 | Two vCPUs meet it at every quantum of at least one tick |
| Latency.MetByEqualWeights | hv-core/src/policy.rs:80-87 | Every pool of equal weights meets it at every quantum of at least one tick: its vCPUs take turns, and while one waits no other gains more than a quantum and a tick |
| Latency.MetByHeavyWaiter | hv-core/src/policy.rs:80-87 | In any one pool a vCPU meets it whose weight keeps what the others can gain on it within their documented turns, which is a condition on the weights and the quantum alone |
| Latency.SkewedExceeds | hv-core/src/policy.rs:70-87 | For every other size and quantum a pool with weights 5, 6, ..., 6 exceeds it |
| Latency.LongWait | hv-core/src/policy.rs:403-483 | In that pool the lightest vCPU waits 2n - 3 quanta and one tick |
| Latency.PassYields | hv-core/src/policy.rs:341-390 | A pass on one CPU hands an idle CPU, or that of an expired runner that leads somebody, to the first vCPU of least service per weight |
| Latency.PassStays | hv-core/src/policy.rs:433-458 | It leaves a runner within its quantum, or one that leads nobody, where it is |

## Left out

- The credit account and the toy decoder of `lib.rs`, the generator of `prng.rs`, and the two credit calls: they touch no other state.
- `fvp-probe`, `board-probe` and the metal, Stage-2, device, partition and simulation crates: outside the decision core.
- Non-interference between observers: its observation function is not part of this model.
- Identifiers are natural numbers: truncation of table sizes to 16 or 32 bits when a table is larger than its index type, and wrap-around of a handle number after 2^32 live mappings of one domain, are not modelled. Reference and mapping counts are bounded at 32 bits and overflow as in the code; run time saturates at 64 bits and products at 128.
- `Fairness.ProportionalFairness`: one physical CPU, no pending wake-boost offset when the run begins, fewer than 2^32 - 3 vCPUs and fewer than 2^64 ticks, so that no counter saturates; several CPUs are not covered.
- `Fairness.BoundedWait`: one physical CPU; it charges every other vCPU one quantum in the waiter's weight and one in its own, and is not tight.
- `Latency.DocumentedBoundExactlyWhen`: one physical CPU, where the formula has no division; sizes and quanta up to the point where two rounds of turns fill the 64-bit clock. Which single pools of three or more unequal weights meet the formula at a quantum of two or more is given by two sufficient conditions only (`Latency.MetByEqualWeights`, `Latency.MetByHeavyWaiter`).
- `PolicyModel.AdvanceSettles`: a quantum of zero on several CPUs whose masks differ; some such passes settle and some do not (`ZeroQuantum.CapIsNotEnough`), and which is not characterised.
- `TABLE_SLOTS` is the code's 8, not the hardware's 512.
- Debug assertions and pure accessors that no property needs.
