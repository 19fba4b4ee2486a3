# Verified model of the bosh-proxmox-cpi-release safety machinery

This project models the parts of bosh-proxmox-cpi-release that keep a storage
certification or a lifecycle run from damaging anything it does not own, and proves in
Dafny what those parts promise: the disposable-backend fault controller, the two fault
proxies, the Director slot guard, the canonical JSON text behind audit fingerprints, the
allocation byte ledger, the two-cluster placement checker, the CPI's request loop, the
foreign-VM pass, rollout histories and selector removal, and the text codecs they use.

`dafny verify dfyconfig.toml` checks the whole project. Nothing here runs the original
programs.

## How it is organised

| files | what they hold |
|---|---|
| Text.dfy | strings: decimals, stripping, splitting, substrings, code-point order |
| FaultBackend.dfy, FaultBackendUndo.dfy, FaultBackendInodes.dfy, FaultBackendApply.dfy | apply and restore as traces of durable changes; undo and conservation over runs cut off anywhere; what they decide on the fields of the host |
| FaultController.dfy | the same operations statement by statement on the host's state |
| JournalProxy.dfy, JournalProxySerial.dfy, JournalVMFaultProxy.dfy | handler threads as program counters, every interleaving, then one write in flight; the handler itself as methods of the proxy object |
| AllocationProxy.dfy, AllocationFault.dfy | the allocation proxy, every interleaving; the handler as methods of the proxy object, and the evidence checks |
| SlotGuard.dfy, SlotGuardRuns.dfy, SlotGuardFields.dfy, SlotFiles.dfy | the guard's decision, runs in which anyone may replace the state, what it decides on the fields of the files, the owner file and the deny list |
| CanonicalJson.dfy, CanonicalJsonUnique.dfy, CanonicalJsonRead.dfy | the canonical printer, why its text is unambiguous, and a reader by RFC 8259 that undoes it |
| Ledger.dfy, LedgerFields.dfy, TransitionLedger.dfy | the byte ledger, what it accepts on the items of plan and journal, and its loops |
| VmCid.dfy, Placement.dfy, PlacementFields.dfy, PlacementCheck.dfy, OwnerTag.dfy | VM CIDs, the placement findings, what they say on the texts of the observation, the loops that collect them, the owner tag by characters and by bytes |
| RequestLoop.dfy | the request loop over a scanner, a buffered writer, panics and signals |
| ForeignCluster.dfy, ForeignScript.dfy, ForeignPass.dfy | what the foreign-VM pass may send, what each step asks and insists on, and the pass against an adversary |
| Selectors.dfy, Rollout.dfy | selector removal over JSON trees, append-only histories |
| HostFirewall.dfy, HostFirewallEdits.dfy, HostFirewallFile.dfy | edits of the host firewall file |
| OpsFile.dfy, OpsFileReads.dfy, OpsFileReleases.dfy, OpsFileModes.dfy | generated ops files, their scanners, and the releases read back whole |

A decision is specified twice. One statement is what the loops are proved against. The
other is written on the raw fields and texts, without the functions of the first, in the
modules named Fields, Apply, Read, Script and Releases; a lemma makes the two equivalent.

Three modelling choices recur. A crash is a prefix of a run's trace of durable changes. A
multi-threaded handler is a program counter, one step per lock section or unlocked access
to shared state, and a run is any interleaving. A proxy object carries such a run as its
ghost history: its fields are always the shared state that run ends in, and every method
performs steps of it, so the theorems over all interleavings hold of the object. What the outside world answers (journal
contents, PVE, disks, other processes) is an argument chosen freely at every step.

## Where the code does less than it may seem to promise

Each of these is a theorem of the model, with the exact condition where there is one.

- A crash while the fault state file is being written leaves a file that is not whole JSON, from every host on which apply gets that far (`FaultBackendUndo.TornReached`; a concrete host in `FaultBackendUndo.TornExample`). The fault was not applied, but no later run of the controller changes anything (`FaultBackendUndo.TornStays`).
- The inode fault accepts one or two free inodes and then gets stuck; it works from three on (`FaultBackendInodes.InodeRoundTrip`). A crash inside it is recoverable exactly when the state file names the filler and every filler file is logged (`FaultBackendInodes.InodeCrashPoints`). A restore of it that is cut off after its first unlink is stuck: no later run changes anything (`FaultBackendInodes.CrashedRestoreSticks`).
- With two writes in flight the journal proxy can pin a fault on the wrong write and lift the poison after a cut (`JournalProxySerial.OverlapBreaks`). In every interleaving the fault is pinned on the right write exactly when no write was admitted after it (`JournalProxy.AttributionIff`). Poison is final exactly when no handler in flight can still fail to keep a receipt (`JournalProxy.PoisonFinal`).
- A panic in the request loop yields one whole response exactly when at most 4096 bytes were written before it, and a response that cannot be encoded yields none and ends the loop (`RequestLoop.OneResponse`).
- The foreign-VM pass documents that a failure leaves nothing of its own on the second cluster (scripts/_lifecycle_foreign.py:364). The pass ends without a VM to its name if and only if it sent no create or ends with the VMID seen free (`ForeignPass.Pass.Run`, `ForeignPass.Pass.Collision`). A cluster that stops answering after the create leaves one (`ForeignPass.LeavesVm`). A create whose task was lost is forgotten after a bounded poll, without a destroy (`ForeignPass.ForgetsVm`).
- The owner-tag helper documents that it replaces bytes (scripts/_spanning.py:64); the code replaces characters. The two give the same owner tag if and only if every character is ASCII once what strips away at the ends is gone (`OwnerTag.OwnerAgreesIff`); they differ on `aéb` (`OwnerTag.AccentDiffers`).
- A refused rollout snapshot leaves the kept histories alone if and only if it was refused before the remote history moved, or that history did not change (`Rollout.RefusedIsInertIff`). One refused over the local journal moves it (`Rollout.RefusedMoves`).
- The byte ledger accepts a plan with negative bytes, and then nothing may remain although a positive budget was never drawn (`Ledger.NegativeBytesCancel`). `Ledger.NothingRemains` gives the exact condition.
- Adding and removing firewall rules gives the file back exactly when no line is one of the rules and the first `[RULES]` line ends with a line break, or the rules were there already (`HostFirewallEdits.RoundTripIff`).
- A cache-mode file is taken for a store-mode one exactly when its stemcell contains the release path (`OpsFileModes.CacheState`), and a current stemcell of only whitespace counts as different (`OpsFileModes.BlankCurrentIsMismatch`).

## Model

| member | source | states |
|---|---|---|
| FaultBackendUndo.RunsStayRecoverable | scripts/_storage_fault_backend.py:138-328 | over every sequence of apply and restore runs, each cut off after any durable change, the host is at its baseline or exactly the recorded fault away from it |
| FaultBackendUndo.CrashSafeUndo | scripts/_storage_fault_backend.py:138-211 | after any such runs one whole restore of a pending export, read-only or quota fault returns mount, exports and quota to the start and removes the state file; apply is refused without a change while a state file exists |
| FaultBackendUndo.RestoreOutcome | scripts/_storage_fault_backend.py:259-304 | in any reachable host, exactly when restore succeeds; success is the baseline without a state file, failure changes nothing |
| FaultBackendUndo.InterferenceRefused | scripts/_storage_fault_backend.py:259-304 | on a host anyone may have changed, restore succeeds if and only if each part it compares is at its saved or its injected value, and then puts the saved values back; otherwise nothing changes |
| FaultBackendUndo.RestoreUndoes | scripts/_storage_fault_backend.py:259-304 | restore of a one-command fault is three durable changes ending at the baseline without the state file |
| FaultBackendUndo.InjectFaults | scripts/_storage_fault_backend.py:164-207 | each injected fault is exactly the written-out faulted host and passes the effect check |
| FaultBackendApply.ApplyIff | scripts/_storage_fault_backend.py:138-211 | apply of a one-command fault succeeds if and only if the host is dedicated, exports to just the declared client, is read-write, has no state file and a free inode, and for quota squashes everyone to the declared user on ext4 with user quotas; then the host is exactly that fault away and the state file holds what was seen; otherwise nothing changes |
| FaultBackendApply.InodeApplyIff | scripts/_storage_fault_backend.py:138-211 | the same for the inode fault, which also needs three free inodes within the declared budget and no filler |
| FaultBackendApply.SquashedIff | scripts/_storage_fault_backend.py:122-135 | the squashed user is this one if and only if no option repeats, all users are squashed, and the anonymous user is declared once as this one or left at the default |
| FaultBackendApply.WholeApply | scripts/_storage_fault_backend.py:306-345 | one whole invocation on an admissible host, lock file included, leaves the host faulted and the state file durable |
| FaultBackendApply.UnlockedUntouched | scripts/_storage_fault_backend.py:306-328 | no invocation changes a host that is not dedicated, nor one without its lock file unless apply can make it |
| FaultBackendApply.InodeInterference | scripts/_storage_fault_backend.py:230-304 | on a host anyone may have changed, an inode restore succeeds if and only if mount and exports are the saved ones and every filler file is accounted for by name, identity and log; then everything of the filler is gone and each inode is given back; otherwise nothing is unlinked |
| FaultBackendUndo.TornStays | scripts/_storage_fault_backend.py:33-45 | a torn state file: no later run changes anything, and the fault was not applied |
| FaultBackendUndo.TornReached | scripts/_storage_fault_backend.py:33-45 | on every host where the plan is made, no state file exists and one can be created, a crash two durable changes in leaves it torn |
| FaultBackendUndo.TornExample | scripts/_storage_fault_backend.py:33-45 | a concrete host that gets there, stays there under any later runs, and was not faulted |
| FaultBackendUndo.ExhaustedLimitTight | scripts/_storage_fault_backend.py:170-172 | the injected hard limit is positive, covers the used space and leaves less than one block |
| FaultBackendInodes.RunsConserveInodes | scripts/_storage_fault_backend.py:157-304 | free inodes plus the inodes the controller's files hold never change over any runs cut off anywhere |
| FaultBackendInodes.InodeRoundTrip | scripts/_storage_fault_backend.py:157-195 | for every count the guard admits: no inode is left free, and apply and restore succeed and return the starting host if and only if at least three were free |
| FaultBackendInodes.InodeCrashPoints | scripts/_storage_fault_backend.py:157-256 | a crash point of the inode fault is recoverable if and only if the state names the filler and directory and log are in step; otherwise nothing is unlinked |
| FaultBackendInodes.RestorePoints | scripts/_storage_fault_backend.py:230-304 | every crash point of an inode restore is the host before it, a host without the state file, or one whose filler the state file no longer owns |
| FaultBackendInodes.CrashedRestoreSticks | scripts/_storage_fault_backend.py:230-304 | an inode restore cut off after its first unlink, with the state file still there: no later runs of the controller, cut off anywhere, change anything |
| FaultBackendInodes.FillExhausts | scripts/_storage_fault_backend.py:213-227 | the fill loop reaches zero free inodes within its bound, with directory and log agreeing on every name |
| FaultBackendInodes.FillConserves | scripts/_storage_fault_backend.py:213-227 | every crash point of the fill loop conserves inodes and keeps the identities of directory and log |
| FaultBackendInodes.UnlinkConserves | scripts/_storage_fault_backend.py:247-256 | unlinking the logged names conserves inodes at every step and leaves the directory empty |
| FaultController.Host.RunApply | scripts/_storage_fault_backend.py:138-211 | apply ends exactly where the apply trace ends; it succeeds if and only if the host is admissible, and success means the fault is injected and its state file durable |
| FaultController.Host.RunExhaust | scripts/_storage_fault_backend.py:173-195 | the inode branch ends where its trace ends, its unwinding included |
| FaultController.Host.MakeFiller | scripts/_storage_fault_backend.py:174-191 | the directory, the log and the state file that names both, or the exact partial state |
| FaultController.Host.RunRestore | scripts/_storage_fault_backend.py:259-304 | restore ends where the restore trace ends |
| FaultController.Host.RunUndo | scripts/_storage_fault_backend.py:277-304 | the fault-specific undoing ends where its trace ends |
| FaultController.Host.RunSettle | scripts/_storage_fault_backend.py:300-304 | the state file goes if and only if the observation is the saved one and the mount is writable |
| FaultController.Host.SaveState | scripts/_storage_fault_backend.py:33-45 | exclusive creation: succeeds only without a state file and with a free inode, else changes nothing |
| FaultController.Host.FillInodes | scripts/_storage_fault_backend.py:213-227 | the loop ends in the last world of the fill trace |
| FaultController.Host.CheckFiller | scripts/_storage_fault_backend.py:230-252 | the loop of checks accepts exactly a filler whose entries are the log's records by name, device and inode |
| FaultController.Host.RecordsByName | scripts/_storage_fault_backend.py:243-246 | the dictionary has as many entries as records if and only if no name repeats |
| FaultController.Host.UnlinkRecords | scripts/_storage_fault_backend.py:253-254 | exactly the logged names are unlinked |
| FaultController.Host.RestoreInodes | scripts/_storage_fault_backend.py:230-256 | nothing is unlinked unless every entry is owned; then the logged files, the directory and the log go |
| JournalProxy.RunSafe | scripts/_storage_placement_vm_faults.py:255-359 | in every interleaving rows have distinct steps, each is held by one handler and sent at most once, and no write is admitted while the proxy is poisoned |
| JournalProxy.ForwardedAtMostOnce | scripts/_storage_placement_vm_faults.py:117-124 | no planned step is forwarded twice in any run |
| JournalProxy.PlannedIff | scripts/_storage_placement_vm_faults.py:117-124 | a planned mutation is found if and only if exactly one step of the record is of the active attempt, still planned and the one the request stands for, and it is that step |
| JournalProxy.AdmitIff | scripts/_storage_placement_vm_faults.py:271-283 | a write is admitted if and only if the proxy is unpoisoned, the request can be read, exactly one planned step stands for it and no row has that step; its row is that step's |
| JournalProxy.SealedForever | scripts/_storage_placement_vm_faults.py:291-359 | a poisoned proxy with no handler that can still abort stays poisoned in every continuation |
| JournalProxy.CanUnseal | scripts/_storage_placement_vm_faults.py:317-332 | otherwise some continuation lifts the poison |
| JournalProxy.PoisonFinal | scripts/_storage_placement_vm_faults.py:291-359 | both directions of the two rows above as one condition |
| JournalProxy.DeliveredAsAnswered | scripts/_storage_placement_vm_faults.py:317-350 | a delivered response, after an aborted injection too, is the one PVE gave to that write, and PVE gave it first |
| JournalProxy.AttributionIff | scripts/_storage_placement_vm_faults.py:292-295 | in every interleaving a fault is attributed to the write being withheld if and only if no write was admitted after it |
| JournalProxySerial.WithheldIsFinal | scripts/_storage_placement_vm_faults.py:291-341 | with one write in flight a cut leaves the proxy poisoned for good, attributed to the withheld write, with its receipt durable; an aborted injection means observe mode and no cut, ever |
| JournalProxySerial.RetainedBeforeCut | scripts/_storage_placement_vm_faults.py:317-341 | a PVE task receipt is in its file before the connection is cut |
| JournalProxySerial.OverlapBreaks | scripts/_storage_placement_vm_faults.py:295 | a concrete run with two writes in flight attributes the fault to the wrong write and ends unpoisoned after a cut |
| JournalVMFaultProxy.Proxy.AdmitWrite | scripts/_storage_placement_vm_faults.py:271-283 | performs the admission step of the run; a row is given if and only if the write may be admitted as above, and it is that step's; a refusal changes no row |
| JournalVMFaultProxy.Proxy.AlwaysSafe | scripts/_storage_placement_vm_faults.py:255-359 | whatever methods have been called, the object is in a state the interleaving theorems speak of: distinct steps, one handler a row, one forward a row, no admission while poisoned |
| JournalVMFaultProxy.Proxy.Search | scripts/_storage_placement_vm_faults.py:271-283 | the checks and the search loop admit exactly the writes that may be admitted |
| JournalVMFaultProxy.Proxy.CheckInjection | scripts/_storage_placement_vm_faults.py:291 | performs the unlocked check; a fault is injected exactly outside observe mode, for a step kind of the phase and a success |
| JournalVMFaultProxy.Proxy.RecordFault | scripts/_storage_placement_vm_faults.py:292-316 | performs the fault step of the run; the fault is attributed to the withheld write if and only if that is the last row; the receipt noted is that write's |
| JournalVMFaultProxy.Proxy.RetainResponse | scripts/_storage_placement_vm_faults.py:74-93 | performs the retention step of the run; the handler goes on to the cut only with the receipt in its file, and a receipt already kept is never replaced |
| JournalVMFaultProxy.Proxy.AbortInjection | scripts/_storage_placement_vm_faults.py:320-327 | performs the three unlocked abort steps of the run in order; afterwards no write of any kind can be faulted and the held response is the one to deliver |
| JournalVMFaultProxy.Proxy.BlockWrite | scripts/_storage_placement_vm_faults.py:353-359 | performs the blocking step of the run; afterwards no request is admitted over any journal |
| JournalVMFaultProxy.Proxy.Forward | scripts/_storage_placement_vm_faults.py:255-359 | one whole write from any reachable proxy: it is sent if and only if it may be admitted, and how it ends (delivered, cut, refused, died) is given exactly by the answer's status and body, the mode, the step's kind and whether the receipt can be kept; a cut leaves the proxy poisoned, attributed to this write and with its receipt kept |
| JournalVMFaultProxy.Proxy.AfterAdmission | scripts/_storage_placement_vm_faults.py:284-359 | the same from the admission on, for the last row |
| JournalVMFaultProxy.Proxy.Withhold | scripts/_storage_placement_vm_faults.py:291-341 | a fault ends in a cut with the receipt kept, in a failure that poisons, or in an aborted injection that lets the response through |
| AllocationProxy.RunInv | scripts/_storage_placement_faults.py:300-404 | the counters are the lengths of the histories and every handler is where its sections allow, over every interleaving |
| AllocationProxy.SingleAllocation | scripts/_storage_placement_faults.py:300-404 | at most one allocation write reaches PVE; every other finished write got the proxy's own error or a closed connection |
| AllocationProxy.EvidenceMeansOne | scripts/_storage_placement_faults.py:585-586 | the final evidence implies that one handler sent the one allocation, PVE answered with success, the client never got that answer, and every other write is still ahead of its first lock section or was closed before it |
| AllocationFault.LoopbackProxy.BlockMutation | scripts/_storage_placement_faults.py:311-315 | performs the blocking step of the run for a stray or an invalid write; the write ends with an error, nothing more reaches PVE, and the counter is the number of blocked writes |
| AllocationFault.LoopbackProxy.CountAttempt | scripts/_storage_placement_faults.py:316-321 | performs the counting step of the run; a write goes on only while nothing has reached PVE, and is stopped only when the one forward is taken |
| AllocationFault.LoopbackProxy.ClaimForward | scripts/_storage_placement_faults.py:356-364 | performs the claiming step of the run; afterwards the one forward is taken, and whoever took it is the only handler ever to do so |
| AllocationFault.LoopbackProxy.AlwaysInv | scripts/_storage_placement_faults.py:300-404 | whatever methods have been called, the object satisfies the invariant of all interleavings: at most one forward, and at most one write sent |
| AllocationFault.LoopbackProxy.Settle | scripts/_storage_placement_faults.py:372-400 | an answer is withheld if and only if it is a success for an allocation and the mode is not observe; then this handler sent the one allocation and the evidence holds its status |
| AllocationFault.LoopbackProxy.Forward | scripts/_storage_placement_faults.py:300-404 | one whole request from any reachable proxy, by its verb, route, length and plan: the first planned POST allocation of a good length is sent and its success withheld outside observe mode, every later one ends with 503, every other write ends with 503 and is counted, reads pass, and each refusal has its own code |
| AllocationFault.LoopbackProxy.Admit | scripts/_storage_placement_faults.py:300-316 | 403 without authority, 400 off the API; otherwise sorted into allocation, read or stray |
| AllocationFault.LoopbackProxy.Transfer | scripts/_storage_placement_faults.py:322-404 | from the body on: what is delivered or withheld is what PVE answered |
| AllocationFault.RowsById | scripts/_storage_placement_faults.py:428-430 | the dictionary of rows by identity, a later row replacing an earlier one |
| AllocationFault.VerifySingleAttempt | scripts/_storage_placement_faults.py:427-449 | accepts if and only if the last row of every old id is unchanged, at most one row is new, no old volume is gone, all new volumes have one id and each is retained for a new row |
| AllocationFault.SingleAttemptIff | scripts/_storage_placement_faults.py:427-449 | the dictionary comparisons say that of the rows and volumes themselves |
| AllocationFault.OneArtifact | scripts/_storage_placement_faults.py:452-461 | what the two checks together say about the one new record and its volume |
| CanonicalJson.KeyIsCoded | scripts/_storage_placement_scenarios.py:139-153 | five replacements over a whole dumped string are one code word per character |
| CanonicalJson.CodePrefix | scripts/_storage_placement_scenarios.py:139-153 | that code can be read back character by character |
| CanonicalJson.StringPrefix | scripts/_storage_placement_scenarios.py:139-153 | a printed string ends where it says it ends |
| CanonicalJsonUnique.ValuePrefix | scripts/_storage_placement_scenarios.py:143-153 | two printed values that start the same text, followed by what may follow a value, are equal |
| CanonicalJsonUnique.CanonicalUnique | scripts/_storage_placement_scenarios.py:143-153 | two documents have the same text if and only if they are equal up to key order |
| CanonicalJsonUnique.FingerprintMeansEqual | scripts/_storage_placement_scenarios.py:197-201 | for a hash without collisions on the two texts, equal fingerprints mean equal documents |
| CanonicalJsonRead.CanonicalReadsBack | scripts/_storage_placement_scenarios.py:143-153 | a reader of RFC 8259 text reads every canonical text back, whole, as its document, with the keys of each object ascending |
| CanonicalJsonRead.KeyReadsBack | scripts/_storage_placement_scenarios.py:150-153 | a printed string is read back by section 7 of RFC 8259 alone |
| CanonicalJsonRead.KeyForm | scripts/_storage_placement_scenarios.py:150-153 | each character stands for itself where it may, has its own escape where there is one, and otherwise four lower-case hexadecimal digits |
| CanonicalJsonRead.CanonicalClean | scripts/_storage_placement_scenarios.py:143-153 | no control character and none of the five characters Go escapes stands raw anywhere in a canonical text |
| SlotGuardRuns.SeparateIff | scripts/_slot.py:693-775 | location and conflict checks find nothing if and only if the state shares no VM, Director id or disk with any protected one |
| SlotGuardRuns.CredsClearIff | scripts/_slot.py:654-690 | the creds comparison finds nothing if and only if no certificate is shared |
| SlotGuardRuns.GuardIff | scripts/_slot.py:802-876 | the guard lets a command start if and only if the state is readable, separate, and empty or of the recorded identity, with the deny list there when required and no copied creds |
| SlotGuardRuns.OwnerRoundTrip | scripts/_slot.py:469-498 | a written owner record reads back as the identity it was written for |
| SlotGuardRuns.IdentityIgnoresOrder | scripts/_slot.py:443-484 | order and repetition of disks and stemcells do not matter |
| SlotGuardRuns.RecordedThenGuarded | scripts/_slot.py:522-586 | right after a recording the guard refuses only over the deny-list requirement or the creds |
| SlotGuardRuns.RunProper | scripts/_slot.py:522-876 | the invariant over runs of commands, recordings and arbitrary outside changes |
| SlotGuardRuns.CommandsStartSafely | scripts/_slot.py:802-876 | every command that started did so on a state separate from all protected ones and empty or of an identity this slot had recorded after the same checks |
| SlotGuardFields.GuardFields | scripts/_slot.py:802-876 | the same condition as above on the files' own fields: no VM, Director or disk object names what a protected state names, and the state holds nothing or is what the owner record names |
| SlotGuardFields.RecordFields | scripts/_slot.py:522-586 | a recording is written if and only if the state holds something and is apart from every protected one, and names exactly what the state names |
| SlotGuardFields.SharedIsRefused | scripts/_slot.py:751-762 | a state with a VM, Director or disk of a protected state starts no command and is never recorded |
| SlotGuardFields.CommandsStartApart | scripts/_slot.py:802-876 | over any run, no command started on anything a protected state named, on the fields of the files |
| SlotGuardFields.ListIff | scripts/_slot.py:311-335 | the deny list is usable if and only if it is blank or every trimmed entry is a positive number, and lists exactly those |
| SlotFiles.Slot.WriteOwner | scripts/_slot.py:522-586 | the owner file changes exactly when the recording succeeds, to exactly that record |
| SlotFiles.ReadDenyList | scripts/_slot.py:311-335 | the loop reads the list the decision uses |
| SlotFiles.EntriesIff | scripts/_slot.py:311-335 | the list is accepted if and only if every trimmed entry is a VMID without leading zero |
| SlotFiles.DenyListExact | scripts/_slot.py:311-335 | an accepted list holds exactly the joined entries, trimmed and in order |
| VmCid.ParsePrint | scripts/_vmcid.py:63-106 | parsing a printed CID gives it back, for every VMID from 1 to 2^63-1 and every stamp pair |
| VmCid.PrintParse | scripts/_vmcid.py:63-106 | whatever parses is a valid CID and prints as the text it came from |
| VmCid.ParseIff | scripts/_vmcid.py:87-106 | exactly the printed forms of valid CIDs parse |
| VmCid.WithTokenRoundTrip | scripts/_vmcid.py:51-61 | replacing the token keeps VMID and cluster through a round trip; possible exactly for a stamped CID and a proper token |
| VmCid.AsPathIdIdempotent | scripts/_vmcid.py:109-124 | the path id of a path id is itself |
| Placement.FirstRow | scripts/_spanning.py:257-258 | the first row of the VMID, none exactly when no row has it |
| Placement.InstanceIff | scripts/_spanning.py:347-407 | one instance's location, band and tag findings together mean it is well placed |
| Placement.StampsIff | scripts/_spanning.py:493-505 | the stamp finding holds exactly when stamps tell AZs apart |
| Placement.RowAccounted | scripts/_spanning.py:467-482 | the stray check asks for an instance anywhere; with the location finding it is one of the same AZ |
| Placement.PlacementIff | scripts/_spanning.py:308-529 | with stamps expected every modelled finding holds if and only if each VM is on its own AZ's cluster only, in its band and exactly tagged, each AZ has instances and one known stamp of its own, and every row with the owner tag is exempt or such a VM |
| OwnerTag.CleanAgreesIff | scripts/_spanning.py:63-65 | replacing characters and replacing bytes give the same text if and only if every character is ASCII |
| OwnerTag.OwnerAgreesIff | scripts/_spanning.py:63-71 | the two owner tags agree if and only if the part that survives stripping is ASCII |
| OwnerTag.AccentDiffers | scripts/_spanning.py:63-71 | a concrete identifier on which they differ |
| PlacementFields.OwnerMeans | scripts/_spanning.py:63-71 | the owner value is a middle part of the identifier, cleaned character by character, with nothing but dashes cut off around it |
| PlacementFields.OnlyIff | scripts/_spanning.py:79-86 | a prefix has just this value if and only if this is the one tag of the text, as a run between breaks, that begins with it |
| PlacementFields.MeansIff | scripts/_spanning.py:336-505 | every finding of the report, on the texts of the observation: CIDs as digits and stamps, tags as runs of the tag text |
| Placement.AzsAreDisjoint | scripts/_spanning.py:308-529 | instances of different AZs share neither a VMID nor a stamp |
| PlacementCheck.CheckPlacement | scripts/_spanning.py:308-529 | the early returns, the findings of a readable observation in both statements, and the equivalence above as its postcondition |
| PlacementCheck.JudgePlacement | scripts/_spanning.py:336-505 | the findings of a readable observation mean what they say |
| PlacementCheck.CheckInstances | scripts/_spanning.py:347-407 | the accumulating loop's dictionaries, sets and lists are those of all instances |
| PlacementCheck.CheckInstance | scripts/_spanning.py:347-407 | one turn of that loop |
| PlacementCheck.LocationProblems | scripts/_spanning.py:364-369 | no location problem exactly when the VM is on its AZ's cluster and no other |
| PlacementCheck.TagProblems | scripts/_spanning.py:382-407 | no tag problem exactly when a stamped CID's row carries just its owner, cluster and token |
| PlacementCheck.Strays | scripts/_spanning.py:467-482 | no stray exactly when no unaccounted row carries the owner tag |
| PlacementCheck.StrayRows | scripts/_spanning.py:471-479 | the same for one cluster |
| PlacementCheck.CheckStamps | scripts/_spanning.py:493-505 | the counting of stamps, including the comparison of value and key counts, decides the stamp finding |
| PlacementCheck.CrowdedAzs | scripts/_spanning.py:495-497 | counts AZs with more than one stamp |
| PlacementCheck.ValuesIff | scripts/_spanning.py:498-500 | a map has as many values as keys if and only if no two keys share one |
| PlacementCheck.EnoughInstances | scripts/_spanning.py:458-463 | an instance in every AZ already implies at least as many instances as AZs |
| Ledger.Conservation | scripts/_storage_placement_transition.py:25-55 | planned bytes are acquired, outstanding and undrawn ones |
| Ledger.AcquiredWithinPlan | scripts/_storage_placement_transition.py:38-53 | for a plan without negative bytes the draw-down alone keeps acquired within planned |
| Ledger.NothingRemains | scripts/_storage_placement_transition.py:53-55 | for every accepted record: nothing is outstanding and no positive budget is undrawn if and only if nothing remains and the plan has no negative bytes |
| Ledger.NegativeBytesCancel | scripts/_storage_placement_transition.py:33-55 | a concrete accepted record with negative plan bytes: nothing remains, and a positive budget was never drawn |
| Ledger.OrderDoesNotMatter | scripts/_storage_placement_transition.py:38-53 | journals with the same charges in any order are accepted alike with the same totals |
| Ledger.PlanOrderDoesNotMatter | scripts/_storage_placement_transition.py:33-38 | neither does the order of the plan's charges |
| LedgerFields.AcceptsIff | scripts/_storage_placement_transition.py:25-55 | a record is accepted if and only if its last plan has a root and an ephemeral target on one backing, its last attempt one observed root step with task and volumes, every charge on the backing is in order, there are of no role and size more charges than planned, and the acquired bytes are positive and within the planned ones |
| LedgerFields.Balanced | scripts/_storage_placement_transition.py:33-55 | the balance has the sums over plan and journal, the root target and step, and all steps of the attempt in order |
| TransitionLedger.Transition | scripts/_storage_placement_transition.py:25-55 | accepts exactly the described records, in both statements; remaining bytes are outstanding plus undrawn, and the balance is that of the record's own items |
| TransitionLedger.DrawAll | scripts/_storage_placement_transition.py:38-52 | the loop over the steps |
| TransitionLedger.DrawStep | scripts/_storage_placement_transition.py:40-52 | the loop over one step's charges fails exactly when the budget or a charge is not in order |
| TransitionLedger.DrawCharge | scripts/_storage_placement_transition.py:41-51 | one charge draws one budget entry of its role and size, partitioned and reflected, or faults |
| RequestLoop.Writer.RunCpi | src/pve_cpi/cmd/cpi/main.go:601-720 | the output is the answers of the lines taken, plus one CloudError on a scan error; nothing stays buffered; a signal stops the loop at exactly the check that first finds the context done |
| RequestLoop.StopIsUnique | src/pve_cpi/cmd/cpi/main.go:634-718 | that check determines how many lines were taken |
| RequestLoop.Writer.ServeLine | src/pve_cpi/cmd/cpi/main.go:667-711 | one line puts exactly its answer on the writer |
| RequestLoop.Writer.DispatchOne | src/pve_cpi/cmd/cpi/main.go:806-857 | a response, an error, or after a panic whatever had been flushed followed by one CloudError |
| RequestLoop.Writer.Write | src/pve_cpi/cmd/cpi/main.go:613 | the loop of a buffered write: order kept, at most 4096 bytes held |
| RequestLoop.Writer.WriteResponse | src/pve_cpi/cmd/cpi/main.go:738-757 | a response written from an empty buffer reaches the writer whole |
| RequestLoop.Writer.Reset | src/pve_cpi/cmd/cpi/main.go:841-844 | buffered bytes are dropped, flushed ones stay |
| RequestLoop.LeakedIff | src/pve_cpi/cmd/cpi/main.go:841-847 | nothing has left the buffer if and only if at most 4096 bytes were written |
| RequestLoop.OneResponse | src/pve_cpi/cmd/cpi/main.go:806-857 | a line gets exactly one whole response if and only if its response can be encoded and a panic came before anything was flushed |
| RequestLoop.OutputIsResponses | src/pve_cpi/cmd/cpi/main.go:601-720 | the output of n lines is one whole response per non-blank line, in order |
| RequestLoop.Serve | src/pve_cpi/cmd/cpi/main.go:601-720 | the output is the pieces of the lines taken and nothing else; the loop fails exactly at the first line whose response cannot be encoded; without a signal every line before that is served |
| RequestLoop.AnswersArePieces | src/pve_cpi/cmd/cpi/main.go:667-711 | line by line: nothing for a blank line, a CloudError for one that is no request, the response, or after a panic a first part of what was written, none of it if that fits the buffer, and one CloudError |
| ForeignCluster.DestroysOnlyOurs | scripts/_lifecycle_foreign.py:518-618 | a destroyed VM was created by this run on a VMID just seen free and was just read under this run's name |
| ForeignCluster.DestroysOnlyUntouched | scripts/_lifecycle_foreign.py:582-618 | a VM that came up clean is destroyed as it came up: the config and status read just before the destroy are those read right after its create, with no other create in between |
| ForeignCluster.NoDifferences | scripts/_lifecycle_foreign.py:274-276 | no differing key if and only if the configs are equal |
| ForeignPass.Pass.Run | scripts/_lifecycle_foreign.py:363-369 | the log of the whole pass is exactly the queries its steps ask in order, up to the first answer a step does not accept; every query was allowed when it was sent; a VM is left to the pass's name if and only if it sent a create and does not end with the VMID seen free; a normal return has seen every answer the three steps insist on and leaves none |
| ForeignPass.Pass.AbsentVmid | scripts/_lifecycle_foreign.py:373-418 | asks exactly its script and returns normally if and only if every answer was the expected one; only looks and has_vm go to the second cluster, and delete_vm only for the CID itself when its cluster stamp is known |
| ForeignPass.Pass.StampedAnswers | scripts/_lifecycle_foreign.py:387-400 | the stamped half of that step |
| ForeignPass.Pass.Collision | scripts/_lifecycle_foreign.py:420-442 | the try, the removal whatever the try gave, and the last look only when both went well, query by query; on every return, normal or not, nothing is remembered if and only if no create was sent or the VMID was last seen free |
| ForeignPass.Pass.TryCollision | scripts/_lifecycle_foreign.py:434-437 | the guarded part: a VM is remembered exactly when a create was sent, before its task or its looks can fail |
| ForeignScript.RanBoth | scripts/_lifecycle_foreign.py:373-618 | a step that accepted its whole script goes on with the next one, so scripts compose |
| ForeignPass.LeavesVm | scripts/_lifecycle_foreign.py:363-369 | answers under which a failing pass leaves a VM on the second cluster |
| ForeignPass.ForgetsVm | scripts/_lifecycle_foreign.py:518-535 | answers under which a failing pass forgets an accepted create whose task was lost, without a destroy |
| ForeignPass.Pass.TokenMismatch | scripts/_lifecycle_foreign.py:444-462 | nothing for a bare CID; otherwise draws a wrong token and asks exactly its script, all of it on the first cluster |
| ForeignPass.Pass.WrongToken | scripts/_lifecycle_foreign.py:656-661 | at most eight draws, up to one that raises or differs; keeps VMID and cluster and changes the token |
| ForeignPass.Pass.CollisionAnswers | scripts/_lifecycle_foreign.py:466-505 | the five calls in order, each with the check that the VM is untouched after it, up to the first unexpected answer |
| ForeignPass.Pass.AskTable | scripts/_lifecycle_foreign.py:466-505 | each call, delete_vm included, comes right after the hand-made VM was read as untouched, and it is read so again after it |
| ForeignPass.Pass.CreateHandmade | scripts/_lifecycle_foreign.py:518-549 | looks first and creates only on a VMID just seen free; the VM is remembered exactly when the create was sent; success means a clean snapshot |
| ForeignPass.Pass.HandmadeUntouched | scripts/_lifecycle_foreign.py:565-580 | success means name, config, power state and lock are the snapshot's |
| ForeignPass.Pass.Az1Untouched | scripts/_lifecycle_foreign.py:648-654 | reads the first cluster only; success means the VM was just read with the config it had |
| ForeignPass.Pass.RemoveHandmade | scripts/_lifecycle_foreign.py:582-618 | the poll, and after a look that found a guest the checks, the destroy and the last look, query by query; success ends with the VMID seen free and nothing remembered; failure keeps the VM remembered and does not end with the VMID free |
| ForeignPass.Pass.DestroyHeld | scripts/_lifecycle_foreign.py:596-618 | a held VM is destroyed and seen gone, or the VMID is not seen free |
| ForeignPass.Pass.SendDestroy | scripts/_lifecycle_foreign.py:614-616 | the destroy, its task and the look after it |
| ForeignPass.Pass.ProvenOurs | scripts/_lifecycle_foreign.py:595-612 | success means the VM may be destroyed: ours by name, and as it came up or untagged; a failure does not end with the VMID seen free |
| ForeignPass.Pass.HoldsVmid | scripts/_lifecycle_foreign.py:620-630 | one look for a confirmed create and the settle attempts more for an unconfirmed one, up to the first that finds a guest or raises; the answer is the last look's |
| Selectors.StripIsComplete | scripts/_storage_placement_rollout.py:394-406 | the check after the removal cannot fail |
| Selectors.SelectorIff | scripts/_storage_placement_rollout.py:104-109 | a tree contains a selector if and only if some path ends at one of the four keys with a value other than null and the empty string |
| Selectors.UnchangedIff | scripts/_storage_placement_rollout.py:396-404 | the removal leaves a tree alone if and only if it holds no selector key |
| Selectors.StripIsIdempotent | scripts/_storage_placement_rollout.py:396-404 | removing twice is removing once |
| Selectors.StripAlongPaths | scripts/_storage_placement_rollout.py:396-404 | every path through a selector key is gone and every other path leads to what it led to, itself stripped |
| Selectors.LeavesStay | scripts/_storage_placement_rollout.py:396-404 | a scalar off every selector path is unchanged |
| Rollout.PreservesTransitive | scripts/_storage_placement_rollout.py:168-183 | prefix, frozen-plan and completion rules compose |
| Rollout.PreservesReflexive | scripts/_storage_placement_rollout.py:168-183 | a history preserves itself |
| Rollout.RunPreserves | scripts/_storage_placement_rollout.py:237-249 | after any snapshots, accepted or refused, the kept histories preserve the first ones |
| Rollout.AcceptedKeepsFirst | scripts/_storage_placement_rollout.py:347 | an accepted snapshot preserves the first one, so the later inclusion check cannot fail |
| Rollout.RefusedIsInertIff | scripts/_storage_placement_rollout.py:237-249 | exactly when a refused snapshot leaves the kept histories as they were |
| Rollout.RefusedMoves | scripts/_storage_placement_rollout.py:244-247 | a concrete refused snapshot that moves the remote history |
| Rollout.PreserveHistory | scripts/_storage_placement_rollout.py:168-183 | the loops accept exactly a history that extends the old one |
| Rollout.ExtendsIff | scripts/_storage_placement_rollout.py:168-183 | the same field by field: no record lost, five fields equal, two lists begin as they did, no attempt dropped, plans frozen, completions kept |
| Rollout.CheckRecord | scripts/_storage_placement_rollout.py:170-183 | the same for one record |
| Rollout.Scenarios.TakeSnapshot | scripts/_storage_placement_rollout.py:237-249 | accepted if and only if the Director is the same and both journals extend the kept ones; then both are kept; a refusal keeps the local one and at most moves the remote one |
| HostFirewallEdits.AddIsIdempotent | scripts/_hostfw.py:41-83 | adding twice is adding once, for every file |
| HostFirewallEdits.RoundTripIff | scripts/_hostfw.py:41-116 | exactly when removing the added rules gives the file back |
| HostFirewallEdits.RoundTripHeader | scripts/_hostfw.py:41-116 | with a terminated header only rule lines are gone |
| HostFirewallEdits.RoundTripNoHeader | scripts/_hostfw.py:72-78 | without a header the file comes back closed, with a header line added |
| HostFirewallEdits.RoundTripOpenHeader | scripts/_hostfw.py:79-83 | a header line without line break gets the rules glued to it |
| HostFirewallEdits.BareHeaderFails | scripts/_hostfw.py:79-83 | the concrete case of a file that is just the header |
| HostFirewallEdits.OtherRules | scripts/_hostfw.py:122-132 | a rule of one subnet never occurs inside a rule of another |
| HostFirewallFile.AddKeepsOthers | scripts/_hostfw.py:25-83 | adding one subnet's rules never changes whether another's are present, for every file |
| HostFirewallFile.RemoveKeepsOthers | scripts/_hostfw.py:86-116 | neither does removing them |
| HostFirewallFile.FindRulesHeader | scripts/_hostfw.py:135-140 | the first header line, and none before it |
| HostFirewallFile.AddRuleBlock | scripts/_hostfw.py:41-83 | the line list edits join to the specified text; an empty subnet is an error |
| HostFirewallFile.RemoveRuleBlock | scripts/_hostfw.py:86-116 | the filtering loop joins to the specified text |
| OpsFile.CompiledReleasesOps | scripts/_compiled.py:180-235 | succeeds if and only if there is a release, no field is blank and no name repeats, with the specified text |
| OpsFile.LocalPathsFromOps | scripts/_compiled.py:238-252 | the loop collects the matching lines' paths in order |
| OpsFile.LinesReadBack | scripts/_compiled.py:235 | reading a written file gives its lines back |
| OpsFileReads.StemcellReadsBack | scripts/_compiled.py:165-177 | the recorded stemcell is read back; a blank one is not recorded |
| OpsFileReads.PathsReadBack | scripts/_compiled.py:238-252 | exactly the file paths are recovered, in the order of the releases |
| OpsFileReleases.ReleasesReadBack | scripts/_compiled.py:180-235 | a reader of the written operations recovers every release, all four fields, in order |
| OpsFileReleases.StemcellFirst | scripts/_compiled.py:165-177 | for any lines: the value of the first marker unless it is blank |
| OpsFileModes.StoreState | scripts/_cfcompile.py:106-131 | a file of pinned releases reads as such, or as a mismatch exactly when it records a stemcell and a differing current one is given |
| OpsFileModes.CacheState | scripts/_cfcompile.py:87-131 | the same for the cache's marker file, with the exact condition under which it is mistaken for the other |
| OpsFileModes.BlankCurrentIsMismatch | scripts/_cfcompile.py:117-131 | a current stemcell of only whitespace is a mismatch |
| OpsFileModes.OccursInLine | scripts/_cfcompile.py:106-109 | a text without line breaks occurs in a file if and only if it occurs in a line |

## Left out

- PVE, SSH, HTTP, TLS, subprocesses and the shell: their answers are arguments, chosen freely; orchestration around the modelled functions would only add easy members.
- The matching of a request to a planned step (`matches`, `drives_within_plan`, `ephemeral_name`, `planned_allocation`) is an arbitrary test given to the proxy models; the safety results hold for every such test, and the tests themselves are case lists.
- GET requests and the response hook of the journal proxy share no state the results speak of.
- `_verified_record_envelope`: the walk over the top-level fields rests on the offsets of Python's JSON decoder, which is library code.
- `PostRootCapacityHook.observe`: sequential checks around the ledger.
- CanonicalJsonUnique.FingerprintMeansEqual: SHA-256 is an arbitrary function; absence of collisions is a hypothesis on the two texts compared.
- CanonicalJson: lone surrogates cannot be represented in a Dafny string.
- FaultBackend: a control command that fails is a run cut off there and followed by a restore; owner, mode and link checks on files, the option string exportfs prints, fsync internals and interference between a check and the change right after it are abstracted.
- FaultController.Host.CheckFiller: file names are decimal ASCII digits, Python's isdecimal accepts more.
- SlotGuard: one run of the guard reads a single moment of the world; str() of a JSON value that is not a string is a given text.
- PlacementCheck.CheckPlacement: reports the six findings about VMs, tags and stamps; the name-prefix, disk, bridge and storage findings are separate per-instance checks that would only add easy members.
- Placement.PlacementIff: the name-prefix, disk, bridge and storage findings are independent of the ones modelled and left out; finding texts are left out.
- TransitionLedger.Transition: amounts are integers; an amount of another JSON type is rejected by the code and not representable here.
- RequestLoop.Writer.RunCpi: write failures and panics of the output's own write, a second panic while the backstop answers, logging and tracing are left out; trimming, decoding, dispatching and encoding are arbitrary functions.
- ForeignPass.Pass.Run: the texts of expected errors are one flag of the answer; sleeping is left out.
- Selectors.StripIsComplete: the removal is modelled as the tree it leaves, so sharing between subtrees of the mutated document is not captured.
- Rollout.PreserveHistory: a missing field and null are one value, as the code reads them; equality of numbers is equality of their spelling, where Python also equates 1 and 1.0.
- HostFirewall and OpsFile: "\n" is the only line break; Python's splitlines knows more. Subnets hold no space and no line break.
- The Go packages behind the CPI (dispatcher, handlers, allocation journal), telemetry, flags and retry curves are not part of this model.
- Reports, documents, config merging and live scenario orchestration would only add easy members.
