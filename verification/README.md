# Verification of the evidence tooling

This project models the algorithms behind the port's evidence and release
scripts and proves what they are relied on for. Each file follows one component.

| file | models |
|---|---|
| `process_inventory.dfy`, `process_owner.dfy`, `process_protocol.dfy`, `process_signals.dfy`, `process_escape.dfy` | the capture owner: parent lineages, the browser inventory, TERM/wait/KILL/verify, the verdict, the whole protocol interleaved with an operating system that spawns, execs, regroups, exits, reaps and reuses pids, and a run that the final check does not see through |
| `release_files.dfy`, `release_headers.dfy`, `release_contents.dfy`, `release_build.dfy`, `release_audit.dfy`, `release_roundtrip.dfy` | the public release: the files of a maintenance bundle and what its control files mean, the transactional builder with its diagnostics sidecar, the independent auditor, and their equivalence |
| `leb128.dfy`, `wasm_module.dfy` | three LEB128 decoders and three WebAssembly walkers (WebAssembly Core Specification, sections 5.2.2, 5.5.2 and 5.5.10), their agreement and their round trips |
| `retail_recipe.dfy`, `retail_clock.dfy`, `retail_startup.dfy`, `retail_queue.dfy` | the startup context and the input-queue clock model with its closed form, and the two binders of input recipes |
| `patch_composition.dfy`, `runtime_inventory.dfy` | resumable patch composition and the library worklist of the reference emulator build |
| `ci_verify.dfy`, `ci_aggregate.dfy` | the CI test partition and the aggregator that accepts its reports |
| `ini_socket.dfy`, `text.dfy` | patching and canonicalising the emulator's INI file, over Python's line splitting and stripping |
| `menu_route.dfy` | ordered matching of controller logs |
| `cut_evidence.dfy` | proxy byte accounting and checksum agreement of the controlled transport cut |
| `common.dfy` | results, sequences, shifts and bitwise or, and sorting as a function of the elements and a total order |

Code that changes state step by step is a method or a class proved against a
functional reference; the properties are lemmas about the reference. SHA-256 is
an abstract function, injective where a result needs it. A raised exception is
`Rejected` (or a false `ok`); which one is raised first is not distinguished.
`ps`, `kill`, git, otool, the file system's faults and the directory-walk order
are inputs.

Four premises bound the process results. One answer of `ps` shows the processes
of a single instant. A pair of pid and start time is never given twice: a pid
reused within the resolution of the start time that `ps` prints is outside the
model. A process changes its group only within its session. A pid, and a group
with its number, stays taken until the process is reaped; the owner scans and
signals groups only while `poll()` has not reaped the leader.

Where a promise does not hold of the code, the exact condition is proved:

- The final absence check looks records up by pid and start alone. It proves
  every inventoried process gone if and only if no two identities share both; a
  process that replaces its command line between two scans breaks this. In a run
  without failed reads nothing else does, and a whole passing run in which one
  does is given.
- The sidecar's name is checked after its files are written and outside the
  block that removes them. An unsafe output name therefore leaves them behind;
  with a safe name every failure restores every file.
- Canonicalising undoes patching if and only if the socket is non-empty, trimmed
  and one line: an empty socket gains a trailing space.
- Patching again replaces the first socket if and only if that socket splits into
  one line; other line breaks leave stray lines behind.
- A patch prefix is found by its first equal snapshot, so every prefix is
  admitted as itself if and only if all snapshots differ.
- The older menu-route verifier searches without looking at the menu state and
  checks it afterwards: it accepts a log that contains the route in order if and
  only if nothing between the rows of the leftmost chain gives the next input in
  another state.
- "Every deferred test is selected by exactly one linked partition" holds of
  accepted reports if and only if no linked partition lists a deferred test of a
  module it does not own; the aggregator looks at owners only and accepts such
  reports. Its owner does select each deferred test exactly once.
- The two WebAssembly export walkers agree except for integers wider than five
  bytes and duplicate names, which the packager alone refuses.
- Path order and name order disagree on exactly the crossing pairs; a bundle has
  none.

The auditor's per-file size limit and the proxy auditor's comparisons of dropped
bytes follow from its other checks; the proofs show they never decide.

## Model

| member | source | states |
|---|---|---|
| ProcessInventory.LineageFor | scripts/capture_owner_deadline.py:56-67 | the parent walk with its seen-set terminates on every parent table, cyclic ones included, and computes the reference walk |
| ProcessInventory.LineageExactly | scripts/capture_owner_deadline.py:56-67 | a lineage is returned exactly when some number of parent links inside the table reaches the root; it then runs root to pid, without repeats, each row's ppid the pid before it |
| ProcessInventory.WalkFinds | scripts/capture_owner_deadline.py:56-67 | the shortest parent walk never meets a process it has already seen, so the seen-set loses no reachable process |
| ProcessInventory.Descendants | scripts/capture_owner_deadline.py:72-76 | the descendants table holds exactly the processes other than the root from which some number of parent links reaches it, each with the lineage of those links |
| ProcessInventory.Roots | scripts/capture_owner_deadline.py:77-78 | the browser roots are the descendants whose command starts the browser, in table order |
| ProcessInventory.Inventory.Capture | scripts/capture_owner_deadline.py:70-103 | a scan adds, in table order, one record per unknown attributable identity, raises just after the 513th, changes nothing when `ps` fails, and keeps every record backed by a scanned table and all identities distinct |
| ProcessInventory.RecordedExactly | scripts/capture_owner_deadline.py:79-96 | a process gets a record if and only if it is not the root, some number of parent links leads from it to the root, and a process that starts the browser, itself below the root, is on that walk or is the process itself; the record names the least such one and carries the lineage |
| ProcessInventory.InventoryOwned | scripts/capture_owner_deadline.py:89-97 | each inventory record's lineage, in a table really scanned, contains the capture root and a process whose command starts the browser |
| ProcessInventory.AbsorbComplete | scripts/capture_owner_deadline.py:80-103 | a scan that does not raise leaves every attributable process of its table in the inventory and removes nothing; from at most 512 records it ends with at most 512, or raises with exactly 513 |
| ProcessOwner.Owner.SignalIfSame | scripts/capture_owner_deadline.py:126-139 | a signal is sent exactly when the table's row has the record's pid, start and command, and the reported state says which of the other cases held |
| ProcessOwner.Owner.TermEach | scripts/capture_owner_deadline.py:431-442 | one TERM, in inventory order, to every record still matched by the refreshed table, and to nothing else; each receipt says what the kill answered, or which other case held |
| ProcessOwner.Owner.WaitForExit | scripts/capture_owner_deadline.py:443-458 | the wait asks `ps` up to the first answer that fails or lists no inventoried identity, or for all its rounds; the table in use is its last answer, and the wait error is recorded exactly when one failed |
| ProcessOwner.ListedExactly | scripts/capture_owner_deadline.py:449-456 | the wait loop's look-up by pid, start and current command finds no cleanup row live exactly when no inventoried (pid, start, command) is in the table |
| ProcessOwner.Owner.KillEach | scripts/capture_owner_deadline.py:464-471 | one KILL per cleanup row whose first record with the same pid and start is matched by the table just read, and nothing else; each receipt says what the kill answered |
| ProcessOwner.Owner.Verify | scripts/capture_owner_deadline.py:475-492 | the verify loop asks up to the first answer that fails or in which every row counts as missing, or for all its rounds; the verify error is recorded exactly when one failed |
| ProcessOwner.Owner.MarkAbsent | scripts/capture_owner_deadline.py:493-501 | each row's absent flag is the first-record test on the table in use |
| ProcessOwner.Owner.RetireBrowsers | scripts/capture_owner_deadline.py:388-502 | the whole cleanup sends exactly the TERMs of the first answer of `ps` and the KILLs of the answer read after the wait, in inventory order; its errors are those there before plus one exactly if some answer failed; each row is marked absent exactly when it is missing from the table read last |
| ProcessOwner.TermFresh | scripts/capture_owner_deadline.py:431-442 | every TERM goes to an inventoried (pid, start, command) that the first answer of `ps` lists |
| ProcessOwner.KillFresh | scripts/capture_owner_deadline.py:464-471 | every KILL goes to an inventoried (pid, start, command) that the answer of `ps` asked for just before lists |
| ProcessOwner.Owner.Verdict | scripts/capture_owner_deadline.py:552-571 | pass exactly when the child exited 0, both groups are absent, every row is absent, no observation failed, attribution holds where demanded, no deadline or owner error, within the time |
| ProcessOwner.Owner.Finish | scripts/capture_owner_deadline.py:388-571 | a run passes if and only if the rest of the report is in order, nothing had failed before, no `ps` of the run failed, every inventoried process counts as missing from the last table, and the browser root was observed where demanded; every signal goes to an inventoried (pid, start, command) listed by the latest answer of `ps` at that time; a pass leaves no inventoried identity in the last answer when identities differ in (pid, start) |
| ProcessOwner.AbsenceExactly | scripts/capture_owner_deadline.py:493-499 | the final check proves every inventoried process gone, for every table, if and only if no two identities share pid and start; and a table without live identities always passes it |
| ProcessOwner.ExecHidesProcess | scripts/capture_owner_deadline.py:466-499 | whenever two identities share pid and start (one process that replaced its command line between scans) there is a table in which one is live and all count as missing |
| ProcessProtocol.StepKeeps | scripts/capture_owner_deadline.py:325-502 | every step of the machine (spawn, exec, regroup, new session, exit, reap) and of the owner (scan, read, failed read, group signal, TERM, KILL) keeps the invariant: ancestry by birth, an unreaped leader holds its pid and its group is born of it, scans and tables are real, signals are owned |
| ProcessProtocol.RunsKeep | scripts/capture_owner_deadline.py:325-502 | the invariant holds after every interleaving of such steps |
| ProcessProtocol.SignalsAreOwned | scripts/capture_owner_deadline.py:352-370 | in every interleaving a signal goes either to the group of the runner or server instance, and then every receiver is born of that instance; or to a pid, by a step that decides on the last table read before it, whose row is a process instance that a scan saw below the runner instance and a browser root; that instance receives it unless the pid was vacated after the read |
| ProcessProtocol.OthersAreSpared | scripts/capture_owner_deadline.py:428-471 | no process that is not born of the runner or the server instance ever receives a signal, whether to its group or to its pid, save when a pid is vacated and reused between a read and a signal |
| ProcessProtocol.LineageIsKin | scripts/capture_owner_deadline.py:56-67 | a lineage of parent links in one snapshot of the machine is a chain of births: everything on it is born of the process it starts at |
| ProcessSignals.RunSignals | scripts/capture_owner_deadline.py:352-502 | in every interleaving that runs to the end, the list of all signals is: TERM to the groups of the runner and the server in that order, then KILL to them, each left out only if its leader was reaped by then; TERM to exactly the inventoried processes that one table lists, in inventory order; then KILL for exactly those rows whose first record with the same pid and start another table lists; both tables were read, or stand empty for a failed read |
| ProcessEscape.PresentIsScanned | scripts/capture_owner_deadline.py:80-103 | in every reachable state an inventoried record whose pid and start are in the table in use is the very process instance that a scan saw |
| ProcessEscape.SurvivorsExec | scripts/capture_owner_deadline.py:388-499 | in every run to the end with no failed scan or read in which everything inventoried counts as missing, an inventoried process that is in the last table has replaced its command line after it was first recorded |
| ProcessEscape.PassLeavesNoIdentity | scripts/capture_owner_deadline.py:388-499 | in every such run, with identities distinct in pid and start, no inventoried (pid, start, command) is in the last table read |
| ProcessEscape.EscapeHappens | scripts/capture_owner_deadline.py:388-571 | there is a whole run that meets every process-side condition of a pass (no failed read, runner reaped, its group empty, browser root observed, everything counted missing) after which an inventoried process is still running under its recorded command line |
| ReleaseFiles.OrdersAgreeExactly | scripts/build_public.py:1528 | two paths are ordered alike by components and by name if and only if neither has, at the first difference, a component that is a proper prefix of the other's and continues below it while the other continues with a character before the slash |
| ReleaseFiles.PlacedOrder | scripts/build_public.py:1528 | on the paths a bundle can have, sorting Path objects and sorting names give one list |
| ReleaseFiles.ConfigureTwice | scripts/build_public.py:1251-1266 | the operator and contact that `_config` returns are accepted again unchanged, so a built manifest is canonical |
| ReleaseContents.ConfigureExactly | scripts/build_public.py:1239-1266 | settings are accepted as a given operator and contact exactly in the two modes, when each is the text between the surrounding whitespace of what was given (or of the preview default for nothing), not empty, at most 200 characters and allowed, production with both given and neither a draft |
| ReleaseContents.BundleContents | scripts/build_public.py:1631-1678 | a bundle has exactly two assets named by the digests of their content, six pages, the notice, the headers, the robots file and in production the redirects; each page is its template with mode, operator, contact and the paths under which those two assets lie |
| ReleaseHeaders.PolicyRead | scripts/build_public.py:1294-1334 | read back by the rules of the format, the headers file is the blocks of the policy in order, each with its headers |
| ReleaseHeaders.ServedWith | scripts/build_public.py:1294-1334 | for every path pattern, which headers its blocks carry |
| ReleaseHeaders.IndexedExactly | scripts/build_public.py:1313-1327 | the block for all paths forbids indexing if and only if the bundle is a preview or is not to be indexed; both pages.dev patterns are there and forbid it exactly in production |
| ReleaseHeaders.RobotsExactly | scripts/build_public.py:1354-1357 | robots.txt disallows everything if and only if the bundle is a preview or is not to be indexed, and allows everything otherwise; nothing else is in force |
| ReleaseHeaders.NoRedirectRules | scripts/build_public.py:1337-1351 | the redirects file is there exactly in production and holds comments only |
| ReleaseFiles.LaidExactly | scripts/build_public.py:1631-1678 | a tree equals what a list of writes with distinct paths lays down exactly when the paths and each content agree; a write that raises makes it unequal |
| ReleaseFiles.BundleDistinct | scripts/build_public.py:1636-1678 | the files of a bundle have pairwise distinct paths, at the root or right below the two directories |
| ReleaseBuild.Disk.WriteNew | scripts/build_public.py:1284-1291 | a write succeeds exactly for a fresh path in a directory that exists, undisturbed by a fault, and when it fails leaves at most one torn new file |
| ReleaseBuild.Disk.Perform | scripts/build_public.py:1632-1678 | the steps either make exactly their files and directories or stop, never touching anything outside the output directory; without faults they finish when their paths are distinct and each goes into a directory made before |
| ReleaseBuild.Disk.Stage | scripts/build_public.py:1452-1471 | staging refuses an existing sidecar without touching it, takes back a failed one with its directories, and otherwise leaves exactly the source files; undisturbed it fails exactly when one path is another or lies below it; an unsafe name is noticed only then |
| ReleaseBuild.Disk.Build | scripts/build_public.py:1571-1718 | wherever a step or write fails every file is as before the call and every new directory is gone but those above the manifest, unless the sidecar was written and its name refused; the output directory is gone after every failure; that leak happens in every undisturbed run with an unsafe name; an existing sidecar, output or manifest is never touched; an undisturbed run with a safe name finishes with exactly the steps' files and directories, the sidecar and the manifest added |
| ReleaseBuild.SafeNameExactly | scripts/build_public.py:210 | the sidecar names accepted are those of the pattern: a letter or digit, then at most 95 letters, digits, underscores, dots or hyphens |
| ReleaseBuild.UnsafeNameLeaks | scripts/build_public.py:1429-1471 | for every unsafe output name, every list of steps that could be made, every non-empty backend source and whatever the seal says, an undisturbed build on an empty disk raises and leaves the complete sidecar and nothing else |
| ReleaseAudit.FileRecords | scripts/build_public.py:1525-1546 | the builder's inventory lists every file once in path order with size and digest, and is refused exactly for a non-file entry or a total over 25 MiB |
| ReleaseRoundTrip.ActsWrite | scripts/build_public.py:1632-1678 | the builder's steps write the bundle of their settings, and raise exactly when a page refuses to render |
| ReleaseRoundTrip.ActsApart | scripts/build_public.py:1632-1678 | the steps have distinct paths, so nothing but a fault or a raising page stops them |
| ReleaseRoundTrip.ActsMake | scripts/build_public.py:1632-1678 | the steps make the two directories the auditor allows and no other |
| ReleaseRoundTrip.SealExactly | scripts/build_public.py:1525-1546 | the manifest records exactly the files, in path order, and is refused exactly when they have more than 25 MiB together |
| ReleaseRoundTrip.BuiltIsAudited | scripts/build_public.py:1631-1706 | the output directory of whatever a maintenance build finishes, its files and directories as the build left them, with the manifest read back from where the build put it, passes every inventory, hash, name and byte comparison of the auditor: acceptance is then equivalent to the text rules |
| ReleaseAudit.OutputFiles | scripts/audit_public.py:184-215 | the listing succeeds exactly when there is no strange entry, no foreign directory, no unsafe name and at most 25 MiB |
| ReleaseContents.SafeRelExactly | scripts/audit_public.py:136-146 | a path of the directory walk is safe exactly when its name has no backslash and no NUL, begins with neither dot nor slash, and has no component of one or two dots |
| ReleaseContents.AssetExactly | scripts/audit_public.py:82 | the asset pattern matches exactly assets/site., sixteen lower-case hexadecimal digits, and the extension |
| ReleaseAudit.ExpectedPaths | scripts/audit_public.py:245-264 | two hashed assets are returned exactly when the paths are those two, the fixed files and nothing else; the pair is then unique |
| ReleaseAudit.ByName | scripts/audit_public.py:597-602 | recording by sorted names lists the files in the builder's path order |
| ReleaseAudit.Decides | scripts/audit_public.py:655-716 | given the expected paths, the auditor's content, name-hash and source comparisons together amount to the tree being the bundle of the manifest's settings with clean text |
| ReleaseAudit.Audit | scripts/audit_public.py:605-726 | the auditor accepts exactly: canonical manifest, tree equal file for file to the bundle of its mode, operator, contact and index flag, size within the limit, records equal, text rules met |
| ReleaseRoundTrip.AcceptsExactlyBuilds | scripts/audit_public.py:605-726 | acceptance is equivalent to: the files are what the builder's steps write for the manifest's settings, the manifest is the one it writes beside them, and the text rules hold |
| Leb128.Uleb | scripts/build.py:418-430 | build.py's decoder is the reference reading of at most ten bytes |
| Leb128.ReadUleb | scripts/audit_compiler_cache.py:233-243 | the cache auditor's decoder is the same partial function |
| WasmModule.ExportParser.ReadU32 | scripts/build_public.py:696-707 | the packager's decoder is the reference reading of at most five bytes and leaves the cursor behind it |
| Leb128.Restriction | scripts/build_public.py:696-707 | reading at most five bytes is exactly reading at most ten, cut off to encodings no wider than five |
| Leb128.ReadingBounds | scripts/build.py:418-430 | a decoded value is below 2^70 for ten bytes and 2^35 for five |
| Leb128.RoundTrip | scripts/build.py:418-430 | decoding the canonical encoding of a value, wherever it stands and whatever follows, gives the value and the position behind it |
| Leb128.CanonicalShortest | scripts/build.py:418-430 | the canonical encoding is the shortest a decoder accepts for its value |
| WasmModule.WasmExports | scripts/build.py:433-463 | the producer's walker computes the reference exports of the module |
| WasmModule.ExportParser.ReadName | scripts/build_public.py:709-720 | a name is read only inside the file, and exactly its bytes |
| WasmModule.ExportParser.ParseExportSection | scripts/build_public.py:730-741 | an export section is accepted exactly when its entries end at its end, although single checks look at the file's end instead |
| WasmModule.ExportParser.Parse | scripts/build_public.py:691-745 | the packager's parser computes the reference exports read with five-byte integers, refused for duplicate names |
| WasmModule.WalkersAgree | scripts/build_public.py:691-745 | the two walkers agree: the packager returns records exactly when the producer does, every integer it read was at most five bytes and the names are distinct; the records are then the same |
| WasmModule.SectionsRoundTrip | scripts/build.py:440-462 | reading encoded sections gives them back in order, tiling the file to its last byte |
| WasmModule.ModuleRoundTrip | scripts/build.py:433-463 | parsing an encoded list of sections returns exactly the encoded exports in order |
| WasmModule.WasmType | scripts/audit_compiler_cache.py:246-275 | the classification equals the reference classification by sections |
| WasmModule.EncodedKind | scripts/audit_compiler_cache.py:246-275 | an encoded module is invalid exactly when a section id is above 12 or a custom section has no well-formed name, and otherwise relocatable exactly when a custom section is named linking |
| WasmModule.CustomNameRoundTrip | scripts/audit_compiler_cache.py:265-273 | the name of an encoded custom section is the one encoded |
| RetailClock.PredictSnapshots | scripts/bind_retail_clock.py:22-37 | the two nested loops terminate and produce the reference snapshot list |
| RetailClock.ValidateQueuePrediction | scripts/bind_retail_clock.py:16-52 | accepts exactly when the observed snapshots are the predicted ones, each of one or two samples, and returns their number |
| RetailClock.ClosedForm | scripts/bind_retail_clock.py:22-37 | after k polls the cursor is min(count, k + 1 + max(1, (d + 8100(k-1)) div 8100000)); so every snapshot holds one or two samples and they tile the frames |
| RetailClock.DoubleExactly | scripts/bind_retail_clock.py:26-37 | the k-th poll finds two samples exactly when the drift d + 8100(k-1) has just crossed a multiple of the alarm period past the first |
| RetailClock.DoublesSpaced | scripts/bind_retail_clock.py:26-37 | after an unclipped double snapshot the next is exactly 1000 polls later and none is between |
| RetailClock.Bind | scripts/bind_retail_clock.py:55-93 | binding succeeds exactly for matching digests, a complete version 4 recipe, the supported startup context and an agreeing queue history, and writes the re-issued recipe |
| RetailStartup.StartupRead | scripts/bind_retail_clock.py:64-78 | whatever the time base and its adjustment, two startup rows that show a pad period, an alarm that much after base plus adjustment, a video period, buffers and two queue reads give exactly that context, and are refused when any one of these is not the original one |
| RetailStartup.StartupBehind | scripts/bind_retail_clock.py:64-78 | behind every context accepted there are the first queue reads at ticks 0 and 2 and, for 32-bit low words, an original startup that they show |
| RetailClock.BindingLossless | scripts/bind_retail_clock.py:80-83 | the clock-bound recipe has 40 more bytes, carries version 5 and the context, and gives the input recipe back when the block is removed and version 4 restored |
| RetailQueue.RecordEvents | scripts/bind_retail_queue.py:24-50 | the event loop succeeds exactly on a complete unbroken history and collects its events |
| RetailQueue.Bind | scripts/bind_retail_queue.py:15-52 | binding succeeds exactly for matching digests, a complete version 4 recipe and an unbroken history, and writes the re-issued recipe |
| RetailQueue.EventsTile | scripts/bind_retail_queue.py:24-50 | accepted events tile [0, frames) in order at their recorded ticks, with times strictly rising from 0 |
| RetailQueue.ReadPackEvents | scripts/bind_retail_queue.py:46-51 | a specification decoder recovers the events from the packed bytes |
| RetailQueue.BindingLossless | scripts/bind_retail_queue.py:51-52 | decoding the bound recipe gives back version, input recipe and events |
| RetailQueue.BindersAgree | scripts/bind_retail_queue.py:15-52 | when the clock binder accepts the same rows and recipe, its predicted list is this binder's list of (tick, count) |
| RetailRecipe.ReissueRestores | scripts/bind_retail_queue.py:52 | removing the inserted block and restoring the version gives back the recipe, for any block and version |
| PatchComposition.AdmissionExactly | scripts/build_reference_dolphin.py:103-107 | every prefix of the series is admitted, and admitted as itself, if and only if the staged snapshots are pairwise distinct |
| PatchComposition.AdmittedExactly | scripts/build_reference_dolphin.py:95-153 | a tree is admitted with a prefix exactly when its index is the first equal to that snapshot, its markers are current and not ahead, the worktree is clean, and its other files are overlay files unchanged |
| PatchComposition.BuildSource.ApplyPatches | scripts/build_reference_dolphin.py:441-446 | the patch loop performs the remaining apply and marker steps of the plan, up to where it is stopped |
| PatchComposition.BuildSource.CopyOverlay | scripts/build_reference_dolphin.py:282-294 | the overlay copy performs exactly the missing files' copies of the plan, in order, and refuses at the first listed target that is there with other content |
| PatchComposition.BuildSource.Resume | scripts/build_reference_dolphin.py:437-451 | one run, stopped anywhere, is admitted as the verifier says and performs a prefix of its plan |
| PatchComposition.PlanSafe | scripts/build_reference_dolphin.py:437-451 | stopping a run after any number of steps leaves a prefix boundary: an index of the series, markers not ahead of it and current, overlay files unchanged |
| PatchComposition.FullPlanCompletes | scripts/build_reference_dolphin.py:437-451 | an unstopped run ends with the full series, all markers and the complete overlay |
| PatchComposition.CompleteExactly | scripts/build_reference_dolphin.py:95-153 | the final check passes exactly on the full series with admissible markers, the complete overlay and clean submodules |
| PatchComposition.RunsKeepBoundary | scripts/build_reference_dolphin.py:437-451 | any number of stopped runs leaves a boundary no earlier than the first |
| PatchComposition.CrashSafe | scripts/build_reference_dolphin.py:437-451 | after any stopped runs the next run is admitted with the right prefix and, let finish, completes and passes the final check |
| RuntimeInventory.Inventory.RecordLoad | scripts/build_reference_dolphin.py:243-278 | one load is recorded and its library queued, or the inventory raises exactly when it cannot be resolved |
| RuntimeInventory.Inventory.Run | scripts/build_reference_dolphin.py:237-279 | the worklist terminates on cyclic graphs; it succeeds exactly when no owner that must be visited misses a load, and has then visited exactly the owners that chains of followed loads reach, which is the least closed set, each once, and recorded every load of every owner |
| RuntimeInventory.LeastClosed | scripts/build_reference_dolphin.py:237-278 | a closed set of owners reached by finite chains of followed loads holds every reached owner and lies in every closed set: closedness and reachability meet in one set |
| RuntimeInventory.TableDescribes | scripts/build_reference_dolphin.py:268-278 | each entry lists exactly the names loaded under its key, first one first, and carries hash and size exactly when some such load is resolved and not system-managed; there are no other entries |
| CiVerify.RepositoryValid | scripts/ci_verify.py:23-66 | the repository's partition tables give every shard a unit partition and every rehomed module one linked owner |
| CiVerify.RepositoryBuildsOnce | scripts/ci_verify.py:106-123 | in the repository's tables every group has its targets, no target is built by two groups, and only linked groups have required tests |
| CiVerify.RepositoryShards | scripts/ci_verify.py:33-46 | in the repository's tables the three named slow modules alone run in the last unit partition; the digest spreads all others over the first two |
| CiVerify.RepositoryRequires | scripts/ci_verify.py:80-107 | exactly the gameplay, fighter, effects and menus partitions have tests that must pass |
| CiVerify.FilterSuite | scripts/ci_verify.py:157-167 | the recursive shard filter computes the reference filter |
| CiVerify.FilterModules | scripts/ci_verify.py:170-181 | the recursive module filter computes the reference filter |
| CiVerify.KeepChooses | scripts/ci_verify.py:157-181 | filtering a tree keeps exactly the wanted cases in their order and leaves no empty suite |
| CiVerify.SplitSuite | scripts/ci_verify.py:235-247 | a unit partition's selected and deferred suites are the two filters of its shard |
| CiVerify.SplitExactly | scripts/ci_verify.py:235-247 | over all unit partitions the selected and deferred suites hold every case of the tree exactly as often as the tree does |
| CiAggregate.CheckInventory | scripts/ci_aggregate.py:25-52 | an inventory is accepted exactly when its ids are distinct, counted and digested correctly |
| CiAggregate.CheckApart | scripts/ci_aggregate.py:98-110 | the overlap loop passes exactly when the lists are pairwise disjoint |
| CiAggregate.CheckOwner | scripts/ci_aggregate.py:134-159 | an owner is accepted exactly when its inventory is in order, it selects precisely the deferred ids of its modules, and its required tests passed |
| CiAggregate.ValidateReports | scripts/ci_aggregate.py:71-176 | the aggregator accepts exactly the acceptable report sets and returns what each owner took over |
| CiAggregate.OfModulesExactly | scripts/ci_aggregate.py:134-147 | what the summary counts for an owner is exactly the deferred ids of its modules, each as often as deferred |
| CiAggregate.JoinInjective | scripts/ci_aggregate.py:21-22 | two equally long lists with one newline-joined text are equal when one of them is free of newlines |
| CiAggregate.AcceptedIsSplit | scripts/ci_aggregate.py:71-176 | accepted reports place each discovered id in exactly one unit's selected or deferred list, once, and every deferred id in the selection of its one owner, once |
| CiAggregate.OneSelectorExactly | scripts/ci_aggregate.py:134-159 | in accepted reports every deferred id is selected by exactly one linked partition if and only if no linked partition lists a deferred id whose module it does not own |
| CiAggregate.ManySelectorsAccepted | scripts/ci_aggregate.py:134-159 | the aggregator accepts reports in which every linked partition selects one and the same deferred test |
| CiAggregate.RepositoryDoubles | scripts/ci_aggregate.py:134-159 | with the repository's groups and owners, a test of any rehomed module selected by more than one linked partition is accepted |
| CiAggregate.HonestAccepted | scripts/ci_aggregate.py:71-176 | for units reported by the producer over one tree whose ids start with their module, the aggregator accepts if and only if the tree is not empty, ids are distinct, and each owner selects its modules' cases once with the required tests passed |
| IniSocket.PatchGdbSocket | scripts/capture_retail_replay.py:275-301 | the line loop computes the reference patch: the one General/GDBSocket line replaced, or a section appended, or refusal of a second key |
| IniSocket.CanonicalIni | scripts/capture_retail_replay.py:100-129 | the line loop computes the reference canonical text |
| Text.CodePoints | scripts/capture_retail_replay.py:100-129 | the line boundaries and the whitespace of the text model are, by code point, those of Python's splitlines and strip |
| IniSocket.PatchTwice | scripts/capture_retail_replay.py:275-301 | patching again only replaces the socket, whatever single-line socket came first, and the patched text has exactly one key |
| IniSocket.PatchTwiceExactly | scripts/capture_retail_replay.py:275-301 | patching twice equals patching once with the last socket if and only if the first socket splits into one line: no break, or only a final carriage return |
| IniSocket.OwnedIsClean | scripts/capture_retail_replay.py:108-129 | a text is canonical only for a socket that is trimmed and free of line breaks |
| IniSocket.CanonicalUndoesPatch | scripts/capture_retail_replay.py:100-129 | canonicalising any patched text under its socket gives the text patched to the placeholder if and only if the socket is one non-empty line without surrounding whitespace |
| MenuRoute.Find | scripts/capture_allocation_history.py:616-624 | the search returns the first later row that matches, or -1 |
| MenuRoute.GreedyComplete | scripts/capture_allocation_history.py:626-650 | leftmost chained search, restarting after a failure included, finds all patterns exactly when some strictly increasing choice of rows matches them in order |
| MenuRoute.VerifySoundRoute | scripts/capture_allocation_history.py:610-653 | accepts exactly the non-empty all-command logs in which some increasing choice of rows matches all 19 inputs, and returns their length |
| MenuRoute.VerifyMenuRoute | scripts/capture_allocation_history.py:480-517 | accepts exactly when the leftmost choice of inputs alone also has the required menu states |
| MenuRoute.MenuRouteExactly | scripts/capture_allocation_history.py:480-517 | that is so if and only if the log contains the route in order and no row strictly between consecutive rows of its leftmost chain gives the next input in another state |
| MenuRoute.MenuRouteIncomplete | scripts/capture_allocation_history.py:480-517 | this stricter verifier is not complete: a log that does contain the route in order is refused |
| MenuRoute.SoundSessionTakesRoute | tests/test_capture_allocation_menu_route.py:119-148 | the recorded sound session, its 22 commands written out, embeds the 19 inputs |
| MenuRoute.OtherSessionMissesRoute | tests/test_capture_allocation_menu_route.py:145-148 | the same session with the balance turned the other way embeds them in no way |
| MenuRoute.MenuSessionTakesRoute | tests/test_capture_allocation_menu_route.py:558-579 | the recorded menu session is accepted by the older verifier as its own leftmost chain |
| CutEvidence.ValidateProxy | scripts/a3_expected_fault_auditor.py:561-617 | the accounting loop accepts exactly balanced books: distinct ids, the selected connection among them, each connection in order, totals equal to the sums; its comparisons of drops never decide |
| CutEvidence.BytesConserved | scripts/a3_expected_fault_auditor.py:561-617 | per direction bytes enqueued are bytes released plus bytes dropped on the cut, all dropped by the one selected connection, and every other connection delivered the bytes it took |
| CutEvidence.ChecksumPrefix | scripts/a3_expected_fault_auditor.py:54-82 | accepts exactly a comparison equal to the receipt taken before the cut that is a frozen contiguous prefix of at least 120 equal, well-formed, correctly digested rows |
| CutEvidence.HexRoundTrip | scripts/a3_expected_fault_auditor.py:80-143 | hexadecimal text determines the bytes it was made from |
| CutEvidence.FromHexRoundTrip | scripts/a3_expected_fault_auditor.py:73-77 | lower-case hexadecimal text is exactly the text of the bytes it decodes to |
| CutEvidence.PreFaultPeers | scripts/a3_expected_fault_auditor.py:118-144 | accepts exactly when both peers were healthy in the original menu, their cursors cover the prefix and their retained rows are its hexadecimal rows |
| CutEvidence.KeyboardWitness | scripts/a3_expected_fault_auditor.py:85-115 | accepts exactly when the sample is a well-formed non-neutral row of its port, captured once, the declared and compared counts reach its effect, and both peers saw the cursor move |
| CutEvidence.KeyboardWitnesses | scripts/a3_expected_fault_auditor.py:85-115 | accepts exactly when the input delay is bounded and both roles' witnesses are in order |
| CutEvidence.PeersAgree | scripts/a3_expected_fault_auditor.py:54-144 | below the compared count both peers retain the same 64-byte row, the one whose digest the receipt reported |
| CutEvidence.MovementCovered | scripts/a3_expected_fault_auditor.py:85-144 | for each role, both peers agree on every tick up to and including the one at which the witnessed input took effect, and no other sample was captured at its input tick |

## Left out

- Time-of-check races: a pid reused between a table read and a signal is marked in the protocol, and nothing is claimed about who then receives the signal.
- Deadlines and clocks: how many rounds the wait and verify loops get is an input.
- CDP attribution in the capture owner: its outcome is an input to the verdict.
- Group summaries and elapsed times in the owner's report.
- The player profile of the release: its runtime graph, text scans and identity checks; the builder's rollback does cover the player's sidecar.
- Text rules of the auditor (forbidden markup, scripts, magic numbers): one parameter, the same for built and audited files.
- `_validate_value`: the pattern rules on operator and contact are parameters; stripping, emptiness, length and the preview defaults are modelled.
- Symbolic links: an entry that is not a plain file or directory is one kind of odd entry.
- ReleaseBuild.Disk.Build: directories made above the manifest are not taken back, as in the source.
- ReleaseHeaders.PolicyRead: the two policies, constants of the source, are parameters required to be one line each; their values are not modelled.
- Reading the approved source from disk, and the manifest's JSON text, whose encoding and decoding are parameters.
- JSON shapes: a value of the wrong type is an absent or refused one.
- CutEvidence.KeyboardWitness: cursor displacements are real numbers compared by squares; the rounding of `math.hypot` is not modelled.
- ReleaseRoundTrip.BuiltIsAudited: builder and auditor read one approved source; a build from another `--source` directory is outside the theorem.
- Non-integer and negative numbers and booleans among the cadence words of the clock binder, and menu states that are not objects.
- RetailQueue.Bind: the evidence dictionary returned beside the bytes is not modelled.
- UTF-8 decoding and universal newlines: texts are code points; export names are decoded by a parameter.
- Exception messages and the order in which failing checks are met.
- How libraries are found: rpaths and loader-relative names are one resolution function.
- Patch application itself: the staged index after each prefix is a function; git's own failures stop a run at a step boundary.
- IniSocket.PatchTwice: stated for a first socket without line breaks, the sockets the runner makes; PatchTwiceExactly has the exact condition.
- CiAggregate.HonestAccepted: stated for ids that start with the module of their class, as discovered test cases have; a failed import has not.
- Flat receipt checks, build-flag tables, setup receipts and runtime provenance: branch-local.
