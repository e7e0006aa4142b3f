# The VeriSilo Camoufox Host in Dafny

A model of the parts of the Camoufox Host that carry invariants, and proofs of what they promise. The Host owns
browser profiles, supervises browser processes, talks JSON lines with its parent, and is shipped as a package whose
every byte is bound by a manifest. The model follows the Linux branch.

| file | models |
|---|---|
| `ProfileOwnership.dfy` | Hosts, exit supervisors, browsers and the kernel as a step system: who may run a browser on a profile |
| `ManagedTree.dfy` | `terminate_managed_tree` against an operating system that forks, exits and reuses PIDs between any two system calls |
| `ManagedTreeMachines.dfy` | four machines on which that call falls short and one on which it kills a tree, with the method called on each |
| `SessionLifecycle.dfy` | one Host's sessions under every interleaving of monitor, launch, close and shutdown |
| `Der.dfy`, `Cms.dfy` | the canonical DER reader and the CMS structure check on top, with the printers they invert |
| `BrowserTree.dfy` | the directory walk, tree manifests and their verification |
| `PackageContract.dfy` | the package tree, its recheck, the reuse of its digests, and the two-pass binding of the builder |
| `Transport.dfy` | the stdin framer, request checks, responses and the loop |
| `ResponseReader.dfy` | a reader of response lines, and the responses read back |
| `PhaseAnchor.dfy` | the diagnostic log of a browser run and the verdict drawn from it |
| `PhaseAnchorRuns.dfy` | browser runs that get each of the two verdicts |
| `ConfigEnv.dfy` | the configuration in numbered environment variables |
| `MediaPoll.dfy` | polling for media devices against a deadline |
| `Recorders.dfy` | the two bounded diagnostic recorders |
| `AtomicWrite.dfy` | the atomic write of the quarantine record on a disk that can lose power |
| `Commons.dfy` | what several models share |

Code that changes things step by step is modelled by methods and classes, proved against functions of their input or
old state; the protocols are step systems, with theorems over every run. JSON, hashing, clocks, the network and the
browser are parameters.

## What the machine is assumed to do

- A process gets a start time later than every earlier process with its PID.
- A lease ends with its holder's death or its release, and not otherwise.
- A supervisor ends before its browser only when its Host kills it, and the watcher's SIGKILL ends both together.
- Directory changes reach the disk in order and each of them whole; file contents only by `fsync`.
- Timers fire when they are due, and only waiting takes time.

## Where the code differs from its own words

- One browser per profile: true as long as no Host dies after killing a supervisor and before its browser's death, and
  no supervisor of an abandoned launch wakes up next to such a browser. Both exceptions are concrete runs
  (`TornProfileLosesExclusion`, `StaleSupervisorLosesExclusion`), and `ExclusionLostIff` with `DangerousSpawn`
  says there is no third. Were the browser root always killed first, exclusion would need no condition
  (`ExclusionIfBrowserFirst`).
- `terminate_managed_tree` says no signal can hit a reused PID. A PID is listed first and its start time read
  afterwards, and the check before a signal is a step of its own. As long as the PID is held at the call, a signal hits
  the process it was meant for exactly when no process is started under that PID in either gap (`SignalHitsMeantIff`);
  in the first gap a stranger can be captured as its own target and signalled although every check succeeds
  (`StrangerIsSignalled`).
- It says exited=True means every captured identity is gone. A child captured after the last poll can escape in the
  SIGKILL branch (`LateChildEscapes`), and a process that takes a PID seen before is never captured
  (`SkippedPidEscapes`). Without reused PIDs, and without reparenting between the last two enumerations, it is as it
  says (`ExitedMeansAllDead`); the exact condition for the captured ones is `CapturedDeadIff`.
- When the clock has passed the deadline before the first poll, it ends in an unbound variable instead of a receipt
  (`UnboundIff`, `ClockJumpsOverTheGrace`).
- `write_quarantine_record` promises takeover once every recorded process is gone. On Linux its entries have no role
  and fail the schema they are read back with, so a non-empty record closes the profile for good (`LinuxRecordIsFinal`,
  `LinuxTakeoverIff`, `LinuxRecordRefusesTheNextHost`).
- `handle_frame` promises a correlated response to every frame with a valid id. A decoding error outside the JSON
  error class, a page request whose action is a list or object, a URL that cannot be parsed, and a surrogate in the
  response are answered by no response at all (`AnsweredIff`, `CheckRaisesIff`, `UnansweredFrames`).
- The smoke-drift check of the builder looks at neither the tree file nor the manifest. A smoke run that rewrites the
  tree file is found only by the last recheck, and only when nothing was added; one that rewrites the manifest of an
  unsigned package, with or without the tree file, passes it too and is found by the payload comparison, after the
  package has been copied out (`StagedPackageRechecks`, `StagedBuildCompletes`, `RewrittenPairPasses`,
  `RewrittenRestFails`).
- A tree manifest rewrites backslashes while the walk does not, so a file name with a backslash never verifies
  (`BuiltManifestVerifies`).
- `normalize_camou_config_env` reports a list of added fields that is always empty, and a number inside a list or a
  dictionary may change its kind unnoticed (`DiffIsExact`, `NestedChangeEscapes`).
- The atomic write syncs the record's directory but not the way to it: when the call has created the directory, the
  record may be lost with it after success (`Volume.AtomicWriteText`).

## Model

| member | source | states |
|---|---|---|
| ProfileOwnership.InitialInv | apps/camoufox-host/exit_supervisor.py:44-59 | the invariant holds of a machine that has just booted, whatever quarantine records it finds |
| ProfileOwnership.InvStep | apps/camoufox-host/exit_supervisor.py:44-152 | each of the twenty steps of Hosts, supervisors, browsers and the kernel keeps the invariant: leases have live holders, running supervisors hold theirs, unsupervised browsers are vouched for, a supervisor in its grace period has a dead Host |
| ProfileOwnership.ExecKeepsInv | apps/camoufox-host/host_v1.py:1213-1242 | the invariant holds after every run, with any number of Hosts, crashes, takeovers and reused PIDs |
| ProfileOwnership.ProbeBeginKeepsInv | apps/camoufox-host/host_platform.py:403-414 | the probe keeps the invariant, whether it finds the supervisor lease free and takes it or gives the Host lease back |
| ProfileOwnership.SupervisorAcquireKeepsInv | apps/camoufox-host/exit_supervisor.py:44-47 | a supervisor that asks for the lease keeps the invariant, granted or refused |
| ProfileOwnership.SpawnBrowserKeepsInv | apps/camoufox-host/exit_supervisor.py:59-71 | spawning a browser under the held lease keeps the invariant |
| ProfileOwnership.GroupKillKeepsInv | apps/camoufox-host/exit_supervisor.py:84-92 | the watcher's SIGKILL keeps the invariant, whether or not the browser had exited after the SIGTERM |
| ProfileOwnership.LeaseSpansGrace | apps/camoufox-host/exit_supervisor.py:145-151 | over any run from the watcher's SIGTERM to its SIGKILL the supervisor stays up and keeps its lease, even with the browser gone: every probe is refused, every other supervisor of the profile dies, no browser is added |
| ProfileOwnership.SupervisorReleaseKeepsInv | apps/camoufox-host/exit_supervisor.py:134-151 | releasing the lease after the browser is gone keeps the invariant |
| ProfileOwnership.QuarantineKeepsInv | apps/camoufox-host/host_v1.py:2639-2679 | quarantining a session, with the record written or not, keeps the invariant |
| ProfileOwnership.HostDiesKeepsInv | apps/camoufox-host/host_platform.py:303-400 | a Host can die at any point; what its death leaves unguarded is marked |
| ProfileOwnership.DeadStaysDead | apps/camoufox-host/exit_supervisor.py:155-168 | an identity that was used and is gone never comes back, however often its PID is reused |
| ProfileOwnership.AtMostOneSupervised | apps/camoufox-host/exit_supervisor.py:44-59 | two browsers of one profile never both have a live supervisor, in any reachable state |
| ProfileOwnership.ExclusionLostIff | apps/camoufox-host/exit_supervisor.py:44-71 | a step makes a second browser of a profile exactly when it spawns one while a browser without supervisor is still alive there |
| ProfileOwnership.SpawnExclusion | apps/camoufox-host/exit_supervisor.py:59-71 | the same for the spawning step alone, both directions |
| ProfileOwnership.DangerousSpawn | apps/camoufox-host/host_v1.py:1213-1242 | such a spawn needs a profile whose Host died in the middle of a forced cleanup, or a supervisor of an abandoned session |
| ProfileOwnership.MutualExclusion | apps/camoufox-host/exit_supervisor.py:44-59 | over every run from boot at most one live browser per profile, as long as neither of those two things happens |
| ProfileOwnership.ExclusionIfBrowserFirst | apps/camoufox-host/host_v1.py:2496-2502 | over every run from boot at most one live browser per profile, with any crashes and stale supervisors, when no Host kills a supervisor before the browser root it knows of is dead |
| ProfileOwnership.ExclusionWithoutForce | apps/camoufox-host/host_v1.py:2496-2502 | so when no Host ever kills a supervisor, exclusion needs no condition at all |
| ProfileOwnership.TornProfileLosesExclusion | apps/camoufox-host/host_v1.py:2496-2502 | a concrete run with two browsers on one profile after a Host dies between killing the supervisor and the browser's death |
| ProfileOwnership.StaleSupervisorLosesExclusion | apps/camoufox-host/host_v1.py:1308-1315 | a concrete run with two browsers where a supervisor wakes up after its launch was given up |
| ProfileOwnership.TakeoverIff | apps/camoufox-host/host_v1.py:1213-1242 | a live Host's launch gets past the quarantine check exactly when both leases are free and the record, if any, is strictly valid and names only dead processes |
| ProfileOwnership.RefusedLaunchIsUndone | apps/camoufox-host/host_v1.py:1213-1242 | a launch refused by a held Host lease does not start, and one refused by the lease probe or by the quarantine check leaves everything as it found it: no Host lease, and no supervisor lease of that Host |
| ProfileOwnership.RefusedThenTakenOver | apps/camoufox-host/host_v1.py:1213-1242 | after a launch refused for the record, over every run that leaves leases and record of the profile alone, another live Host takes it over exactly when the record is valid and every process it names is dead by then |
| ProfileOwnership.ExitedThenTakenOver | apps/camoufox-host/host_v1.py:3025-3029 | after a confirmed exit the profile is given back: unless a supervisor still has its lease, any live Host can take it over, then and after every such run |
| ProfileOwnership.TakeoverMeansGone | apps/camoufox-host/host_v1.py:2715-2757 | over every run, whoever operates on a profile that had a quarantine record has it valid and every process it named dead by then |
| ProfileOwnership.RecordRemovedOnlyByCheck | apps/camoufox-host/host_v1.py:2715-2757 | no other step removes a record, and the check only a valid one with every process dead |
| ProfileOwnership.InvalidRecordBlocksForever | apps/camoufox-host/host_v1.py:2682-2704 | a malformed or unreadable record keeps every later launch out, over every run |
| ProfileOwnership.LiveRecordedProcessBlocks | apps/camoufox-host/host_v1.py:2707-2757 | a record keeps every later launch out while one of its processes is the same live process |
| ProfileOwnership.LinuxRecordIsFinal | apps/camoufox-host/host_v1.py:2656-2677 | a non-empty record written on Linux keeps the profile closed for good, since its entries have no role |
| ProfileOwnership.LinuxTakeoverIff | apps/camoufox-host/host_v1.py:2656-2757 | over every run that leaves the written record alone, once all it names are dead and both leases are free, a live Host takes the profile over exactly when the record names no process |
| ProfileOwnership.LinuxRecordRefusesTheNextHost | apps/camoufox-host/host_v1.py:2656-2757 | a run from an empty machine that quarantines a session, lets browser, supervisor and Host die, and after which the next Host is refused |
| ProfileOwnership.LeaseOutlivesRoots | apps/camoufox-host/host_v1.py:3025-3029 | once the Host knows its browser, its lease lasts until both roots are dead |
| ProfileOwnership.QuarantineKeepsLease | apps/camoufox-host/host_v1.py:1922-1955 | a quarantined session keeps its lease as long as its Host lives |
| ManagedTree.DeadStaysDead | apps/camoufox-host/host_v1.py:2304-2327 | a verified identity found dead is dead for good, although its PID may live again |
| ManagedTree.SameUnlessStarted | apps/camoufox-host/host_v1.py:2286-2301 | as long as a PID is held, it is still the same process exactly when the machine started no other under it |
| ManagedTree.SignalHitsIff | apps/camoufox-host/host_v1.py:2436-2454 | a signal whose target was read by bare PID for some process hits that process exactly when the PID is still held at the call and the machine starts no process under it before the read of the start time or after the last check |
| ManagedTree.Kernel.StartTime | apps/camoufox-host/host_v1.py:2286-2301 | the start time read is the one in the process table at that instant |
| ManagedTree.Kernel.IdentityAlive | apps/camoufox-host/host_v1.py:2304-2327 | true exactly when the first read finds the identity and the second a process under its PID that is no zombie |
| ManagedTree.ReadAliveIff | apps/camoufox-host/host_v1.py:2304-2327 | an identity so found is alive at the second read exactly when no process is started under its PID between the two |
| ManagedTree.WalkVisits | apps/camoufox-host/host_v1.py:2335-2348 | one turn of the stack walk keeps the enumeration sound and loses no listed child |
| ManagedTree.ProcessDescendants | apps/camoufox-host/host_v1.py:2330-2349 | the walk ends, starts at the root, visits nothing twice, and lists every child it read |
| ManagedTree.Capture | apps/camoufox-host/host_v1.py:2436-2447 | one sweep per base, each a sound enumeration with no listed child left out; every PID found that was not known before is captured with the start time read then, nothing else is, and each process that had such a PID is then a target or dead for good |
| ManagedTree.AliveOf | apps/camoufox-host/host_v1.py:2457-2457 | the result is exactly the identities whose two reads, one after another, find them alive |
| ManagedTree.PollIsSound | apps/camoufox-host/host_v1.py:2304-2327 | what such a poll drops is dead for good if it ever existed, what it keeps has existed |
| ManagedTree.SignalAll | apps/camoufox-host/host_v1.py:2448-2454 | the signals sent are exactly those to the targets found again by their own check, in the given order, each at the instant after its check |
| ManagedTree.SendsToTheLiving | apps/camoufox-host/host_v1.py:2448-2454 | a target that exists throughout the pass is signalled |
| ManagedTree.Grace | apps/camoufox-host/host_v1.py:2455-2480 | the polls, recaptures and sleeps of the grace period, round by round: it ends when a poll finds nobody or the clock is late; then every target its last poll looked at is dead for good or among the living found, and those captured after that poll are left open; it never polls exactly when its first clock read is late |
| ManagedTree.WaitGone | apps/camoufox-host/host_v1.py:2503-2514 | the wait after SIGKILL, clock read by clock read: it looks again after every sleep as long as a poll finds somebody before the deadline, reports gone at the first poll that finds nobody, and then every target is dead for good; it reports not gone only after a clock read past the deadline |
| ManagedTree.WaitIsDetermined | apps/camoufox-host/host_v1.py:2503-2514 | that course is the only one the machine and the sleeps allow |
| ManagedTree.Force | apps/camoufox-host/host_v1.py:2481-2523 | SIGKILL goes to what a fresh enumeration from the last poll's living captures; after the wait the remaining ones are exactly those one more poll finds alive, and every other target is dead for good |
| ManagedTree.TerminateManagedTree | apps/camoufox-host/host_v1.py:2417-2523 | against any lawful machine the call takes exactly the course of polls, enumerations, signals and waits described by Ran; every recorded identity that was real, every target of the last poll and every target found again or first found for SIGKILL is dead for good or remaining, so exited means all of them are dead; the only other end is the unbound variable of a late first poll |
| ManagedTree.NotExitedMeansWaited | apps/camoufox-host/host_v1.py:2503-2523 | a receipt without exited was given after the whole timeout: every look before the last found somebody alive, and what remains is what a poll after the last clock read finds alive |
| ManagedTree.ExitedOnceGone | apps/camoufox-host/host_v1.py:2503-2523 | if any look of the wait before the deadline finds nobody, the receipt says exited |
| ManagedTree.SignalsAreAimed | apps/camoufox-host/host_v1.py:2448-2502 | over the whole call every signal goes to a captured identity that its own check found again right before |
| ManagedTree.CaughtWasListed | apps/camoufox-host/host_v1.py:2330-2447 | every captured PID is that of the enumeration's base or was listed as a child in it |
| ManagedTree.SignalHitsMeantIff | apps/camoufox-host/host_v1.py:2436-2502 | each such signal hits the base or the listed child it was meant for exactly when its PID is still held at the call and no process is started under it between the listing and the read of the start time, nor between the last check and the call |
| ManagedTree.StillReached | apps/camoufox-host/host_v1.py:2481-2495 | without reused PIDs and reparenting a process listed once is found again by a later enumeration from the same living base, as long as it lives |
| ManagedTree.ExitedMeansAllDead | apps/camoufox-host/host_v1.py:2417-2425 | exited means that every captured target and every process any enumeration listed is dead for good, on a machine that gives no PID out twice until the last enumeration ends and, if SIGKILL was needed, reparents nobody between the last poll's enumeration and the end of SIGKILL's; nothing is asked of what SIGKILL itself does |
| ManagedTree.CapturedIsDead | apps/camoufox-host/host_v1.py:2481-2495 | for the captured targets alone it is enough that neither happens between those two enumerations |
| ManagedTree.CapturedDeadIff | apps/camoufox-host/host_v1.py:2417-2523 | on any machine an exited receipt means that every captured target is dead for good exactly when those are that were captured after the last poll and whose PID SIGKILL's enumeration did not list |
| ManagedTree.UnboundIff | apps/camoufox-host/host_v1.py:2455-2484 | the call ends in the unbound variable exactly when a root was alive and the clock read guarding the first poll is already past the deadline |
| ManagedTreeMachines.StrangerIsSignalled | apps/camoufox-host/host_v1.py:2436-2454 | a lawful machine on which every call for a recorded process sends SIGTERM to a stranger under its PID, although each check succeeds |
| ManagedTreeMachines.CallOnReused | apps/camoufox-host/host_v1.py:2417-2454 | and such calls happen: the method called on that machine |
| ManagedTreeMachines.LateChildEscapes | apps/camoufox-host/host_v1.py:2469-2514 | a lawful machine on which every call with a timeout above 50 ms and up to 10 s reports exited although a child it captured after the last poll lives on |
| ManagedTreeMachines.CallOnLate | apps/camoufox-host/host_v1.py:2417-2514 | the method called on that machine |
| ManagedTreeMachines.SkippedPidEscapes | apps/camoufox-host/host_v1.py:2466-2480 | a lawful machine on which a process listed under a PID already seen is never captured, and every call reports exited while it lives on |
| ManagedTreeMachines.CallOnRecycled | apps/camoufox-host/host_v1.py:2417-2480 | the method called on that machine |
| ManagedTreeMachines.ClockJumpsOverTheGrace | apps/camoufox-host/host_v1.py:2455-2484 | a lawful machine on which every call with a timeout of up to ten seconds ends in the unbound variable |
| ManagedTreeMachines.CallOnJumping | apps/camoufox-host/host_v1.py:2455-2484 | the method called on that machine with the timeout of a close |
| ManagedTreeMachines.KilledParentIsQuiet | apps/camoufox-host/host_v1.py:2481-2514 | a lawful machine on which every call kills the parent while its child is still there and reports exited, and which meets the condition of ExitedMeansAllDead all the same |
| ManagedTreeMachines.CallOnKilled | apps/camoufox-host/host_v1.py:2417-2514 | the method called on that machine: exited is reported and every captured target is dead for good |
| SessionLifecycle.InvStep | apps/camoufox-host/host_v1.py:1713-1734 | every step of monitor, launch, close and failure keeps the session invariant |
| SessionLifecycle.ReachableSessions | apps/camoufox-host/host_v1.py:2193-2271 | in every reachable state: lease held iff the tree was not reported gone; exited iff the receipt is clean; quarantined iff reported not gone, and then leased |
| SessionLifecycle.CleanCloseIsExited | apps/camoufox-host/host_v1.py:1784-1824 | a close ends in exited exactly for an unforced exit with an observed status 0 and both contexts closed |
| SessionLifecycle.ReceiptIsOfTeardown | apps/camoufox-host/host_v1.py:1775-1824 | over every run a receipt tells the step that ended the teardown: its contexts are those observed, its forced cleanup is performed, not_needed or failed exactly as the tree exited with SIGKILL, without, or not; after a close the process exit is forced exactly when the tree exited with SIGKILL |
| SessionLifecycle.ReachableReceipts | apps/camoufox-host/host_v1.py:1775-1824 | so in every reachable state a receipt's forced cleanup and process exit are those of the tree's fate |
| SessionLifecycle.OneTeardown | apps/camoufox-host/host_v1.py:1826-1840 | monitor and command never tear one session down at the same time, and nobody does after the result is known |
| SessionLifecycle.ReportedIsFinal | apps/camoufox-host/host_v1.py:2135-2150 | once the tree's fate is known the session never changes again, over every run |
| SessionLifecycle.LeaseIsContinuous | apps/camoufox-host/host_v1.py:3025-3029 | a lease that is held later was held at every moment since the launch took it |
| SessionLifecycle.QuitLeavesNothingBusy | apps/camoufox-host/host_v1.py:3288-3303 | when the Host quits, the leases still held are those of quarantined sessions and of failed ones whose teardown has no result: it raised, or the monitor's is still under way |
| SessionLifecycle.MonitorStillBusyAtQuit | apps/camoufox-host/host_v1.py:3288-3303 | a run that leaves the loop while a monitor is tearing its session down, the lease held |
| Der.OctetsDenote | scripts/build-camoufox-host-package.py:676-676 | the minimal big-endian octets of a number denote it and have no leading zero |
| Der.OctetsUnique | scripts/build-camoufox-host-package.py:673-676 | octets without leading zero are the minimal octets of the number they denote |
| Der.TakeEncode | scripts/build-camoufox-host-package.py:667-681 | reading back an encoding gives its content and what follows (X.690 sections 8.1.3 and 10.1) |
| Der.TakeIsPrinted | scripts/build-camoufox-host-package.py:667-681 | whatever is read was the encoding of the content, followed by the rest |
| Der.EncodingsAreUnique | scripts/build-camoufox-host-package.py:667-681 | two encodings that start the same bytes are the same, and so are their rests |
| Der.TakenIffPrinted | scripts/build-camoufox-host-package.py:667-681 | a read succeeds with content and rest exactly when the data is that encoding and that rest, below 2^32 octets |
| Cms.Sha256Inverse | scripts/build-camoufox-host-package.py:683-686 | the algorithm check accepts exactly the printings of SHA-256 with absent or NULL parameters |
| Cms.SignerAlgorithmInverse | scripts/build-camoufox-host-package.py:711-716 | the SignerInfo check, both directions; what follows the digest algorithm is free |
| Cms.OptionalsInverse | scripts/build-camoufox-host-package.py:704-706 | the optional [0] and then [1] fields are read exactly as printed |
| Cms.ContentInverse | scripts/build-camoufox-host-package.py:695-703 | one SHA-256 digest and a detached content, both directions |
| Cms.SignedDataInverse | scripts/build-camoufox-host-package.py:694-710 | the whole SignedData sequence, both directions |
| Cms.AcceptedIffPrinted | scripts/build-camoufox-host-package.py:663-716 | a signature is accepted with a given reading exactly when it is the DER printing of that reading |
| Cms.AcceptanceIsTheGrammar | scripts/build-camoufox-host-package.py:663-716 | the validator accepts exactly the printings of the grammar of RFC 5652 sections 3, 5.1, 5.2 and 5.3 it describes |
| Cms.AcceptedIsPrefixFree | scripts/build-camoufox-host-package.py:688-693 | no accepted signature continues another: nothing may trail |
| BrowserTree.WalkEntries | apps/camoufox-host/browser_tree.py:45-82 | the stack walk ends and reports every entry of the tree exactly once |
| BrowserTree.WalkedPathsDistinct | apps/camoufox-host/browser_tree.py:62-63 | the relative paths it reports are all different |
| BrowserTree.ListingIff | apps/camoufox-host/browser_tree.py:45-82 | an entry is reported exactly when the descent by its path through readable directories ends at something that is no directory, with its kind, and for a file with its content |
| BrowserTree.BuildTreeManifest | apps/camoufox-host/browser_tree.py:85-110 | a manifest is built exactly for trees of regular files, and lists each with its size and digest |
| BrowserTree.ManifestIsOfFiles | apps/camoufox-host/browser_tree.py:85-110 | whatever the order of the walk, the manifest has one item for each regular file at a path, with that file's size and digest, and no other; it is refused exactly when something else is at a path |
| BrowserTree.IndexFiles | apps/camoufox-host/browser_tree.py:186-195 | the file map is the listing; the collision branch is never taken |
| BrowserTree.CompareFiles | apps/camoufox-host/browser_tree.py:211-232 | the comparison counts no mismatch exactly when every present file matches, wherever the cap stops it |
| BrowserTree.VerifyTree | apps/camoufox-host/browser_tree.py:173-242 | verification succeeds exactly when the tree has no irregular entry and its files are the manifest's, the runtime extra aside; for every cap and with digests computed or handed in |
| BrowserTree.MatchesByNodes | apps/camoufox-host/browser_tree.py:173-242 | that is: everything at a path that is no directory is a regular file the manifest names, or the runtime extra, and each item of the manifest is found at its path with its size and digest |
| BrowserTree.BuiltManifestVerifies | apps/camoufox-host/browser_tree.py:85-110 | a tree of regular files verifies against its own manifest exactly when no path contains a backslash |
| BrowserTree.ReusedDigestsAgree | apps/camoufox-host/browser_tree.py:223-227 | digests handed in change nothing when they are those of the files |
| BrowserTree.VerifiedTreesAgree | apps/camoufox-host/browser_tree.py:173-242 | two trees that verify against one manifest hold the same files, unless they are hash collisions or runtime extras |
| BrowserTree.ExpectedSummary | apps/camoufox-host/browser_tree.py:235-238 | the counts reported are those of the manifest's entries |
| BrowserTree.LoadTreeManifest | apps/camoufox-host/browser_tree.py:147-170 | a manifest loads exactly when its paths stay inside, none comes twice, digests have 64 characters and the summary is right |
| BrowserTree.LoadedSummary | apps/camoufox-host/browser_tree.py:168-170 | a loaded manifest's summary is what verification reports |
| BrowserTree.BuiltManifestLoads | apps/camoufox-host/browser_tree.py:153-158 | the manifest built from a tree that verifies can be loaded again exactly when its names pass the path checks |
| PackageContract.BuildPackageTree | apps/camoufox-host/package_contract.py:414-451 | the package tree is every file but the two descriptions with its digest, or an error exactly for irregular entries, unsafe names or nothing to list |
| PackageContract.FilesAreNodes | apps/camoufox-host/package_contract.py:414-433 | the files of a package are the regular files found by descending the paths, with their bytes |
| PackageContract.ReadDeclared | apps/camoufox-host/package_contract.py:628-637 | the declared list is accepted exactly when it is well formed and names nothing twice, and then says what the result says |
| PackageContract.RecheckPackage | apps/camoufox-host/package_contract.py:588-656 | the recheck passes exactly when required members, digests, declared tree and actual tree agree |
| PackageContract.BrowserDigests | apps/camoufox-host/package_contract.py:665-674 | the stripped map holds exactly the digests of the entries under the browser prefix |
| PackageContract.BrowserInPackage | apps/camoufox-host/package_contract.py:665-674 | every entry of the browser directory is an entry of the package under that prefix |
| PackageContract.VerifyBrowserRoot | apps/camoufox-host/package_contract.py:335-410 | the browser root verifies exactly when its tree manifest loads under the right label with the pinned digest, the stamp in application.ini is the lock's, executable and properties have the pinned digests, and the tree is the manifest's |
| PackageContract.ReuseAccepts | apps/camoufox-host/package_contract.py:659-694 | reusing the digests of the package scan accepts exactly when hashing every browser file again would |
| PackageContract.RecheckFormalPackage | apps/camoufox-host/package_contract.py:659-694 | the formal recheck with reuse decides the same as the one that hashes everything, with the asset lock and the browser tree manifest read from the package's own root files |
| PackageContract.BoundByFiles | apps/camoufox-host/package_contract.py:659-694 | the browser part of the formal recheck, stated on the directory tree, is a matter of the package's files alone |
| PackageContract.TreeIgnoresItself | scripts/build-camoufox-host-package.py:1053-1060 | writing either description never changes the tree it describes |
| PackageContract.ShippedEntries | scripts/build-camoufox-host-package.py:1075-1094 | what is shipped is what was staged before the smoke run plus at most browser/version.json |
| PackageContract.SmokedKeepsBindings | scripts/build-camoufox-host-package.py:1082-1092 | every digest bound before the smoke run still holds after a drift check that passes |
| PackageContract.SmokedKeepsBrowser | scripts/build-camoufox-host-package.py:1082-1092 | a browser bound before the smoke run is bound after a drift check that passes: the one file that may be added is the one its verification passes over |
| PackageContract.StagedPackageRechecks | scripts/build-camoufox-host-package.py:1128-1130 | the last formal recheck, browser part included and by the manifest read back from the disk, passes exactly when the smoke run added the runtime extra, or left the tree file as written (signed), or left a tree file and a manifest that agree with each other, the asset and the files (unsigned) |
| PackageContract.StagedBuildCompletes | scripts/build-camoufox-host-package.py:1128-1142 | the build completes exactly when the runtime extra was added, or the smoke run left the tree file as it was and, unless the package is signed, a manifest of which everything that is signed is the same: bindings, key id, capabilities and the order of the keys |
| PackageContract.BrokenManifestFails | scripts/build-camoufox-host-package.py:1082-1130 | a smoke run that only breaks the manifest file of an unsigned package passes the drift check and fails the last recheck |
| PackageContract.RewrittenTreeFails | scripts/build-camoufox-host-package.py:1082-1130 | a smoke run that rewrites the tree file to other bytes fails the last recheck, signed or not |
| PackageContract.RewrittenPairPasses | scripts/build-camoufox-host-package.py:1082-1142 | a smoke run that rewrites the manifest of an unsigned package, and the tree file to agree, passes the last recheck; the build completes exactly when neither the tree digest nor the rest of the payload differs |
| PackageContract.RewrittenRestFails | scripts/build-camoufox-host-package.py:1128-1142 | so a smoke run that only sets another key id, other capabilities or another key order passes the recheck and fails the build |
| Transport.SplitUnique | apps/camoufox-host/host_v1.py:3223-3234 | there is one way to split a stream into LF-ended lines and a tail |
| Transport.Reader.Accept | apps/camoufox-host/host_v1.py:3223-3239 | one byte keeps the reader's state right and never buffers more than 32768 bytes |
| Transport.Reader.Run | apps/camoufox-host/host_v1.py:3211-3243 | for every way the stream is cut into reads the queue is its lines in order, each too long one as one marker, the unterminated tail dropped |
| Transport.FrameShape | apps/camoufox-host/host_v1.py:239-252 | a response goes out as one line of at most 32768 bytes, its replacement included, exactly when nothing in it is a surrogate |
| ResponseReader.FrameReadsBack | apps/camoufox-host/host_v1.py:239-252 | read by a UTF-8 and JSON reader of its own, the line that goes out is the response it was made from if that fits 32768 bytes, and only otherwise the replacement under the same id |
| ResponseReader.ResponseReadsBack | apps/camoufox-host/host_v1.py:239-252 | the printed text reads back as the id, whether it is ok, and the result or the error's code and message, with ensure_ascii or without |
| ResponseReader.StringReadsBack | apps/camoufox-host/host_v1.py:241-251 | a JSON string reads back as the text it was printed from, escapes and surrogate pairs included |
| ResponseReader.Utf8ReadsBack | apps/camoufox-host/host_v1.py:241-243 | UTF-8 reads back as what was encoded |
| Transport.Pipe.WriteAll | apps/camoufox-host/host_v1.py:253-258 | partial writes deliver a prefix of the frame, and all of it exactly when every write the loop made took something; it gives up at the first one that does not, and at no other point |
| Transport.Pipe.Send | apps/camoufox-host/host_v1.py:239-258 | a response is written whole exactly when it can be encoded and every write made for it took something; otherwise a prefix of it or nothing |
| Transport.CheckRaisesIff | apps/camoufox-host/host_v1.py:578-656 | the request check raises something other than a protocol error exactly for a page request whose action is a list or object or whose URL cannot be parsed |
| Transport.RequestPassesIff | apps/camoufox-host/host_v1.py:578-656 | a request passes exactly when it has no field too many, a valid id, a known command, and what that command needs |
| Transport.ResponsesEchoTheId | apps/camoufox-host/host_v1.py:3037-3061 | every response carries the id of a frame that decoded to an object with a valid one, and null otherwise |
| Transport.ResponsesTellTheOutcome | apps/camoufox-host/host_v1.py:3037-3154 | a success carries the result of the work done; a failure the words, and the code, of what failed first: decoding, the request check or the work |
| Transport.MarkIsAnsweredAsTheLine | apps/camoufox-host/host_v1.py:3272-3284 | the marker the reader leaves for a too long line is answered exactly as the line itself would be |
| Transport.AnsweredIff | apps/camoufox-host/host_v1.py:3037-3154 | a frame gets a response exactly when decoding it raises nothing uncaught, it is no page request with an unhashable action or an unparsable URL, and what the answer repeats holds no surrogate: the id, the names of fields too many, the decoder's words, the outcome of the work |
| Transport.MustAnswerIff | apps/camoufox-host/host_v1.py:3037-3154 | the same for whatever is dequeued: a too long line always gets its answer, a frame under that condition |
| Transport.UnansweredFrames | apps/camoufox-host/host_v1.py:3037-3061 | three concrete frames that get no response: a page request whose action is an empty list, a goto of http://[, and a surrogate as id |
| Transport.OnlyShutdownStops | apps/camoufox-host/host_v1.py:3085-3154 | the Host stops after a frame exactly when it was a valid shutdown that ended or failed with a protocol error |
| Transport.Serve | apps/camoufox-host/host_v1.py:3257-3288 | one response per dequeued item, in order, until the stream ends, a shutdown is answered or an exception leaves the loop; what was written splits back into exactly those responses; an exception leaves it exactly when an item gets no response that can be encoded, or a write took nothing |
| Transport.Host | apps/camoufox-host/host_v1.py:3191-3288 | from bytes to bytes: the lines of the input are answered one each and in order, however it is cut into reads; it crashes only at a line that gets no answer or at a write that took nothing, so with every line meeting the condition of AnsweredIff and a pipe that takes something each time it ends with the stream or a shutdown |
| PhaseAnchor.AdmittedIffLogged | apps/camoufox-host/fp2_r1_diag.py:619-650 | the event check admits exactly the objects that well-formed events are logged as, each for its one event |
| PhaseAnchor.ParseDiagnosticLog | apps/camoufox-host/fp2_r1_diag.py:653-682 | a log is admitted exactly when its lines are, nothing overflowed, one process wrote it and each side's numbers are 0 to n-1 |
| PhaseAnchor.AdmittedNumbering | apps/camoufox-host/fp2_r1_diag.py:673-675 | in an admitted log the events of each process, sorted, are numbered by their positions, below 512 |
| PhaseAnchor.VoicesApart | apps/camoufox-host/fp2_r1_diag.py:978-1003 | the counts checked leave no room for a doubled voice: five native, none of them managed |
| PhaseAnchor.ParentSendsInPhase | apps/camoufox-host/fp2_r1_diag.py:968-990 | in an accepted log the parent sends every native voice during the platform's initialisation, every managed one inside the managed batch, and the snapshot last |
| PhaseAnchor.MirrorAfter | apps/camoufox-host/fp2_r1_diag.py:996-1005 | the mirror between two adds is what the adds up to there brought |
| PhaseAnchor.MirrorPhases | apps/camoufox-host/fp2_r1_diag.py:1024-1029 | the mirror is empty, or exactly the native voices, at exactly the points the verdict compares |
| PhaseAnchor.SupportedIffReplayed | apps/camoufox-host/fp2_r1_diag.py:944-1035 | the verdict is supported exactly when the page saw nothing, then the native voices, and replaying the adds gives the report at each of the three queries |
| PhaseAnchor.SupportedLogReplays | apps/camoufox-host/fp2_r1_diag.py:653-682 | for every log that parses, a supported verdict means the replay shows empty, native, and native plus managed |
| PhaseAnchorRuns.FaithfulRunIsSupported | apps/camoufox-host/fp2_r1_diag.py:944-1035 | for any 58 voices and any interleaving of the two processes, the run in which the page first finds nothing and then the native voices is accepted and supported |
| PhaseAnchorRuns.LatePageIsUnsupported | apps/camoufox-host/fp2_r1_diag.py:944-1035 | the run in which the native voices were there before the page asked is accepted too and not supported |
| ConfigEnv.LastPartOf | apps/camoufox-host/host_runtime.py:485-485 | the number of a key is what follows its last underscore |
| ConfigEnv.DecimalIff | apps/camoufox-host/host_runtime.py:540-540 | the number of a key is written in base ten: it is the one text of digits without leading zero whose digits, weighed by place, make the number |
| ConfigEnv.PiecesFit | apps/camoufox-host/host_runtime.py:539-540 | no piece is empty or longer than the chunk size, and only the last is shorter |
| ConfigEnv.Rewrite | apps/camoufox-host/host_runtime.py:534-541 | the environment written is the other variables unchanged and the pieces numbered from 1; no old chunk survives |
| ConfigEnv.SortedAscends | apps/camoufox-host/host_runtime.py:484-488 | chunks with different numbers are sorted by number |
| ConfigEnv.AnyOrderReassembles | apps/camoufox-host/host_runtime.py:483-491 | the text comes back whole from any order of the entries and for any number of chunks; only the empty text stores nothing |
| ConfigEnv.ComparedIff | apps/camoufox-host/host_runtime.py:492-521 | a sent configuration is accepted exactly when every field not stored is a native one of its type; the others are exactly those reported |
| ConfigEnv.DiffIsExact | apps/camoufox-host/host_runtime.py:503-533 | the difference reports nothing added, and is empty exactly when everything stored was sent with its type and with its value but for the kinds of numbers inside lists and dictionaries; what is dropped was on the list of native fields |
| ConfigEnv.EqualIffBlurred | apps/camoufox-host/host_runtime.py:524-528 | two values compare equal exactly when they are the same once every number in them, truth values included, is made a float |
| ConfigEnv.NestedChangeEscapes | apps/camoufox-host/host_runtime.py:524-528 | a list whose number is sent as a truth value counts as unchanged |
| MediaPoll.EventLoop.BoundedRpc | apps/camoufox-host/host_probe.py:192-220 | a call takes at most its timeout and its settling, and times out exactly when the answer is late |
| MediaPoll.ObservedCounts | apps/camoufox-host/host_probe.py:169-174 | each count is how often the kind occurs |
| MediaPoll.ParseAttempts | apps/camoufox-host/host_probe.py:240-253 | one attempt per list exactly when every list is well formed |
| MediaPoll.ReadinessResult | apps/camoufox-host/host_probe.py:309-324 | each attempt is marked by its own counts; matched by the reason and the last one |
| MediaPoll.WaitForConfiguredDevices | apps/camoufox-host/host_probe.py:256-306 | it ends within its attempts for any clock that is injected, by the deadline for one that tells the time; only the last attempt can match, exactly when the reason is success and the last call showed the expected devices; a first answer in time that shows them is the result |
| Recorders.LinesFit | apps/camoufox-host/host_v1.py:322-340 | every supported line fits 512 bytes until its duration takes hundreds of digits |
| Recorders.LaunchStageRecorder.Record | apps/camoufox-host/host_v1.py:291-346 | an unsupported call is refused; a stage's first start or first terminal is always recorded, a later one never; totals stay within 22 lines and 22*512 bytes |
| Recorders.LaunchStageRecorder.RecordAll | apps/camoufox-host/host_v1.py:275-346 | the log of a launch is each slot's first call, in the order of the calls |
| Recorders.FirstsCoverCalls | apps/camoufox-host/host_v1.py:317-320 | the first calls cover every supported call and come once each |
| Recorders.Diagnostics.Diagnose | apps/camoufox-host/host_v1.py:398-445 | a report becomes a line exactly when it is new and the budgets allow it |
| Recorders.Diagnostics.DiagnoseAll | apps/camoufox-host/host_v1.py:398-445 | the log of a run is what the budgets admitted, report by report |
| Recorders.PartsOfLog | apps/camoufox-host/host_v1.py:435-444 | over any run the log stays within 20 lines and 3072 bytes and the response lines within 2048 |
| Recorders.ResponsesAreFew | apps/camoufox-host/host_v1.py:447-469 | over any run with plain response reports they take at most two lines of at most 530 bytes |
| Recorders.CloseKeptIff | apps/camoufox-host/host_v1.py:398-445 | over any run the close loses nothing exactly when its first reports and the logged response lines fit both budgets together |
| Recorders.CloseReportsKept | apps/camoufox-host/host_v1.py:398-445 | the recorder's own guarantee: up to eighteen different close reports of up to 2012 bytes, the whole budget less two response lines, are all logged, whatever the responses did |
| Recorders.CloseBoundIsTight | apps/camoufox-host/host_v1.py:435-442 | for the recorder alone that bound is sharp: calls the Host never makes, with one byte more, lose the last close report |
| Recorders.HostCloseIsComplete | apps/camoufox-host/host_v1.py:1736-2253 | over any run of the Host its close loses nothing: each of its nine reports is in the log as it first came up, whatever the responses did and however many sessions were closed |
| AtomicWrite.RenameAdds | apps/camoufox-host/host_v1.py:2562-2562 | the rename adds the whole new content, and nothing else, to what may be read after a power loss |
| AtomicWrite.DirectorySyncSettles | apps/camoufox-host/host_v1.py:2563-2567 | after the directory is synced only the new content is left, or nothing where the directory itself is not yet on the disk |
| AtomicWrite.Volume.WriteOut | apps/camoufox-host/host_v1.py:2554-2555 | a buffer written in any number of calls, the power cut after any of them, changes nothing for the record's path; what got through is a prefix |
| AtomicWrite.Volume.Fill | apps/camoufox-host/host_v1.py:2551-2556 | creating, writing and syncing the temporary file changes nothing for the record's path at any moment |
| AtomicWrite.Volume.Replace | apps/camoufox-host/host_v1.py:2561-2567 | the rename and the directory's sync: at every moment the path reads as before or as the new text, and both go through exactly when no call raises |
| AtomicWrite.Volume.AtomicWriteText | apps/camoufox-host/host_v1.py:2544-2578 | wherever the power is cut, inside a write in parts or the creation of the directory too, the path reads as before or as the whole new text; it succeeds exactly when the temporary name is free and no call raises, and then only the new text is left, but for a directory not on the disk before the call, which may be lost with it; a failure leaves the path as it was unless the rename had gone through, and no temporary file unless its unlinking raised too |

## Left out

- ManagedTree.TerminateManagedTree: promises death of captured and listed processes without condition only for its Subjects, because for the others it is false of the code; `ExitedMeansAllDead` has the condition. Identities without a positive start time count as dead, as in the code.
- ProfileOwnership.MutualExclusion: is stated with the profiles torn by a Host's death and with stale supervisors, since the code can lose exclusion there; `ExclusionIfBrowserFirst` has a condition a Host can check.
- ManagedTree.Kernel.StartTime: takes the field from the process table, without the parsing of the stat line; an unreadable line is a missing process.
- SessionLifecycle.InvStep: takes closing pages and contexts as one outcome each, and a raising `terminate_managed_tree` as a teardown that never ends.
- Cms.AcceptanceIsTheGrammar: leaves version numbers, signer identities and everything after the SignerInfo's digest algorithm as opaque octets, as the code does.
- BrowserTree.LoadTreeManifest: does not model the JSON layer and the key sets in front of the entry checks.
- BrowserTree.WalkEntries: directories that cannot be read are skipped silently, as in the code, and a file is immutable while it is looked at.
- PackageContract.RecheckPackage: takes the package as one state of the disk; the executable bits, directory checks and manifest field checks in front of it are not modelled.
- PackageContract.BuildPackageTree: walks by the stack walk of the browser tree where the code calls `os.walk`; the tree is a map, since its JSON lists the paths in order.
- PackageContract.VerifyBrowserRoot: takes the field checks of the asset lock and the search in `application.ini` as parameters, and leaves out the executable bit.
- PackageContract.StagedPackageRechecks: requires that the tree file left by the smoke run is no hash collision of the one written, and the same of every staged file.
- Transport.Serve: has no signals; SIGTERM and SIGINT end the loop between two frames.
- Transport.AnsweredIff: takes it that joining names adds and drops no surrogate.
- Transport.CheckRaisesIff: takes regular expressions, `urlparse` and the joined lists of names as parameters, and shortens some messages.
- PhaseAnchor.ParseDiagnosticLog: starts from lines already matched against the transport pattern and decoded.
- PhaseAnchor.SupportedIffReplayed: takes the digests, schema and key sets of an observation as one condition.
- ConfigEnv.DiffIsExact: has no NaN, and gives the lists as sets.
- MediaPoll.WaitForConfiguredDevices: uses exact arithmetic and does not round the seconds reported; timers go by the event loop's time, whatever clock is injected; the script in the page is an arbitrary answer.
- Recorders.HostCloseIsComplete: is for durations of up to thirty digits.
- Recorders.Diagnostics.Diagnose: takes the size of a payload as given, with its fields already cut to 64 characters.
- AtomicWrite.Volume.AtomicWriteText: takes the directories above the record's as one, and has no errors other than OSError.
- The Windows branches: Job Objects, the Windows supervisor, case folding and reparse points.
- Playwright, page actions, probe scripts, cookies, Xvfb and HTTP: foreign calls, kept only as outcomes.
- OpenSSL's signature and certificate checks, SHA-256 and the JSON library themselves.
- `classify` for the V1 to V4 axes and the remaining evidence scripts: comparisons of fields with constants.
- Window clamping and firefox preferences: linear arithmetic and constants.
- The asset lock and manifest validators: long conjunctions settled by reading one branch.
