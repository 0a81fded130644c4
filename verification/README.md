# Verified model of GPU checkpoint and restore

The modelled program checkpoints and restores GPU worker processes. Its promise is that after a
checkpoint and a restore every GPU pointer the application holds is mapped again, at the same address,
with the same bytes and the same sharing between processes. The project states that promise in Dafny,
for all inputs, all schedules of the DMA engine, all interleavings of the processes and any number of
cycles, and proves it where it holds. Where the code does not keep it, there is a concrete input and
the exact condition under which it is kept; these are listed under "Findings".

Verify everything with `dafny verify dfyconfig.toml`. The project is written for Dafny 4.11.

## What is modelled

**One worker's memory.** `Vmm` is the driver's virtual-memory interface (reservations, physical memory,
mappings) and `Allocator` the cudaMalloc and cudaFree hooks with the release and remap steps. `Stream` is
a stream of single-byte copies: the DMA engine may complete any prefix of what has been issued at any
time, the one event is a position in that prefix, and a copy from the host reads the staging byte as it is
at the moment it completes. `Dump` and `Refill` are the two double-buffered pipelines over that stream;
CPU copies advance byte by byte with the DMA engine running alongside. `Granule` holds the device copy
lengths, `Replay` and `Image` the plain dump and restore the pipelines are compared with, `VGpu` the full
and the selective checkpoint and restore, and `RoundTrip` their composition.

**Memory shared between workers.** `Fabric` is the driver as several processes see it: physical blocks,
handles, mappings at addresses, shareable descriptors. `IpcProcess` is one process's tracking tables with
teardown and rebuild of its exports, `ExportLayout` where export bytes are saved, `Survival` which exports
keep their bytes over cycles in which some rebuilds are refused, and `AccessLog` the recorded access rights
and how long a record lives. `LocalAllocs` saves the allocations that are never exported and says where
their bytes go, and `LocalRebuild` is their round trip: collected from the tables, taken down, backed,
refilled and renumbered; `WorkerCycle` runs exports and local allocations of one worker together, in the order
of the handlers. `IpcHooks` is the hooked driver calls and where an application's handle leads, and `HookRuns`
what any run of them does to the index tables and the import records.
`IpcExport` publishes the rebuilt exports, `Exchange` crosses the published blocks over, `IpcImport` fetches
descriptors and matches them by position, `Cluster` runs all workers through a whole cycle, `Lifetime`
mixes cycles with what the application releases and unmaps, and `Pair` shows that ordinary use of the hooks
reaches the state a cycle needs.

**The coordinator.** `Protocol` is the phased protocol between the coordinator and the signal handlers,
one mailbox word a worker, in every interleaving, with the published blocks in shared memory. `Freeze`
is the lock, checkpoint, restore, unlock machine over any run of attempts. `PeerAccess` is the switching
off and on of peer access, `Adapter` the adapter runtime: its host buffers and its prepare and restore
calls, over a process and its exports.

The C++ code keeps its state in global tables that functions update in place. Those functions are methods
here, on the class that has the tables as fields or, for the IPC phases, taking the process as a parameter.
A method's contract ties the new state to a function or predicate on values, and the lemmas are about
those.

`obliging` on the device and on the machine means that the driver, and the descriptor exchange, refuse
nothing they are able to do. Contracts that do not mention it hold whatever is refused; contracts that do
say when an operation succeeds.

## Model

| member | source | states |
|---|---|---|
| `Granule.ChunkShape` | src/vGPU.cpp:328-341 | For every block, size and staging position the selective copies are nonempty, contiguous, cover the block exactly, stay in one 2 MB granule each, and stop only at a granule boundary, the block's end or the staging buffer's end |
| `Granule.AlignedExactlyWhen` | src/vGPU.cpp:64-76 | The stronger shape the comment promises, every copy aligned at its start or its end, holds if and only if the last staging buffer the block reaches receives at least the block's partial last granule |
| `Granule.AlignedShapeFails` | src/vGPU.cpp:64-76 | A block that breaks the comment's shape with the real 1 GB staging buffer |
| `Dump.DumpPipeline.Issue` | src/vGPU.cpp:145-157 | No copy is enqueued over a staging byte that has not been drained |
| `Dump.DumpPipeline.Tick` | src/vGPU.cpp:158-177 | The pipeline invariant survives any completion of a pending copy, at any moment |
| `Dump.DumpPipeline.CpuCopyByte` | src/vGPU.cpp:48-62 | The CPU never reads a staging byte with a pending copy, and writes the byte that belongs there |
| `Dump.DumpPipeline.CopyOut` | src/vGPU.cpp:328-362 | Asking for one block extends what is dumped by exactly that block's bytes, with exactly the device copies of `Granule.Chunks` |
| `Dump.DumpPipeline.Finish` | src/vGPU.cpp:179-203 | Whatever the schedule, the file then holds all bytes asked for, in order, and nothing outside them was written |
| `Refill.RefillPipeline.CpuFillByte` | src/vGPU.cpp:502-511 | The CPU never overwrites a staging byte a pending copy still has to read |
| `Refill.RefillPipeline.RefillOther` | src/vGPU.cpp:498-511 | The length of the next refill does not underflow, and the idle buffer gets exactly its slice of the payload |
| `Refill.RefillPipeline.CopyIn` | src/vGPU.cpp:601-636 | The running buffer offset always equals the recomputed one, and a file's device range is covered by exactly the copies of `Granule.Chunks` |
| `Refill.RefillPipeline.Finish` | src/vGPU.cpp:520-526 | Device memory ends as the sequential replay of all copies, though every copy read the staging area as it was when it completed |
| `Replay.PlayRun` | src/vGPU.cpp:483-497 | A run of byte copies into one block is one overwrite of its range |
| `Image.TableSlicesPayload` | src/vGPU.cpp:127-131 | Each file-table entry names its block and cuts exactly its bytes out of the payload |
| `Image.TablePacked` | src/vGPU.cpp:99-131 | The entries are packed back to back from the rounded header end to the final offset |
| `Image.RestoreAllWorks` | src/vGPU.cpp:467-518 | Restoring files with different targets leaves every file equal to its slice |
| `VGpu.Worker.DumpNext` | src/vGPU.cpp:120-178 | One round of the dump loop checks both limits, writes only behind the current offset, and fails on a feasible dump only if the driver refuses |
| `VGpu.Worker.Ckpt` | src/vGPU.cpp:79-237 | The file holds the in-order concatenation of all allocations' rounded contents with a table that slices it, all backing is released, and without refusals it succeeds if and only if every allocation is mapped at its extent, the table has room and the bytes fit |
| `VGpu.Worker.CkptSelective` | src/vGPU.cpp:250-422 | The same for exactly the allocations that contain a requested pointer, each once, with all the bytes the application asked for and no others, and device copies in granule shape; all other mappings stay |
| `VGpu.Worker.FindContaining` | src/vGPU.cpp:239-248 | Finds an allocation around the pointer if and only if there is one |
| `VGpu.Worker.BlocksFor` | src/vGPU.cpp:286-296 | The set of allocations to snapshot is exactly those that contain a requested pointer |
| `VGpu.Worker.ReleaseBlocks` | src/vGPU.cpp:207-217 | Releasing the dumped blocks succeeds if and only if each is mapped at its tracked extent, and takes down exactly those |
| `VGpu.Worker.RemapAll` | src/vGPU.cpp:436-449 | All files' blocks are mapped again at their rounded sizes, the rest of memory untouched; without refusals it succeeds if and only if every file can be remapped |
| `VGpu.Worker.Restore` | src/vGPU.cpp:424-541 | For every well-formed dump and schedule, restore is the plain restore of every file's slice over the remapped blocks |
| `VGpu.Worker.Refill` | src/vGPU.cpp:467-526 | The streaming part of restore equals the plain restore, with device copies in granule shape on the selective path, and succeeds without refusals |
| `RoundTrip.DumpRecovered` | src/vGPU.cpp:424-526 | The plain restore of a dump gives every dumped block its bytes and touches nothing else |
| `RoundTrip.FullCycle` | src/vGPU.cpp:79-541 | Checkpoint then restore gives every allocation its address, extent and bytes back; without refusals it succeeds if and only if the dump is feasible |
| `RoundTrip.SelectiveCycle` | src/vGPU.cpp:250-661 | Selective checkpoint then restore gives every covered allocation its extent and all the bytes the application asked for back, and leaves every other one with even its handle; without refusals it succeeds if and only if the dump is feasible |
| `Allocator.LiveExactlyRecorded` | src/GPUs/NVIDIA/nv.cpp:456-459 | In every consistent state the driver's live handles are exactly the handle map's values, one a pointer, and a tracked pointer is mapped exactly when it has an entry |
| `Allocator.AllocatorHook.Malloc` | src/GPUs/NVIDIA/nv.cpp:402-465 | It succeeds if and only if none of the four driver calls is refused; a refusal of any of them leaves driver memory and tables as they were; success adds one fresh pointer, readable over its rounded extent |
| `Allocator.AllocatorHook.Free` | src/GPUs/NVIDIA/nv.cpp:467-512 | Forgets the pointer and gives up its handle and no other, and leaves tables and driver out of step if and only if the mapped extent is not the tracked one |
| `Allocator.AllocatorHook.ReleasePhysical` | src/GPUs/NVIDIA/nv.cpp:162-201 | Gives the memory back and keeps the address; succeeds if and only if the pointer is tracked and mapped at its tracked extent |
| `Allocator.AllocatorHook.RemapPhysical` | src/GPUs/NVIDIA/nv.cpp:204-265 | Maps any extent that fits the reservation; all extents remain the tracked ones if and only if the new size rounds to the tracked extent |
| `Allocator.BackingExact` | src/GPUs/NVIDIA/nv.cpp:237-261 | The extent invariant survives a new backing if and only if its extent is the tracked one |
| `Allocator.ShrinkingRemap` | src/GPUs/NVIDIA/nv.cpp:237-261 | The failing input: a 6 MB pointer remapped with 2 MB can no longer be unmapped at its tracked extent |
| `Allocator.AllocatorHook.ShrunkPointerIsStuck` | src/GPUs/NVIDIA/nv.cpp:162-265 | That pointer can then be neither released nor remapped, and freeing it leaves its mapping behind untracked |
| `AccessLog.ReplayIsOneCall` | src/ipc_hooks.cpp:1929-1957 | Replaying logged descriptors one call at a time gives the rights one call with all of them gives |
| `AccessLog.Record` | src/ipc_hooks.cpp:606-620 | Recording keeps one entry a location and makes the log denote the last-writer-wins rights |
| `AccessLog.RecordCall` | src/ipc_hooks.cpp:598-620 | After a hooked call the log replays to the rights the driver then has |
| `AccessLog.KindMatters` | src/ipc_hooks.cpp:1922-1928 | Two locations of different kinds with one id both keep their rights |
| `AccessLog.Address.Grant` | src/ipc_hooks.cpp:590-660 | On a live mapping, log, import record and export record all follow the call |
| `AccessLog.Address.RebuildLocal` | src/ipc_hooks.cpp:2318-2332 | A local rebuild gives the granted rights if and only if: with a nonempty log, every location named while only one of log and mapping was listening was named again while both were; with an empty log, the calls gave exactly the default |
| `AccessLog.Address.RebuildExport` | src/ipc_hooks.cpp:1929-1957 | The same for exports, whose empty log falls back on the last descriptor seen by the record |
| `AccessLog.Address.RebuildImport` | src/ipc_hooks.cpp:2612-2640 | An import always gets the granted rights back, because its record begins with its mapping |
| `AccessLog.PlainLife` | src/ipc_hooks.cpp:1929-1957 | With one mapping and at least one call, any sequence of calls survives any number of rebuilds, as a local allocation, as an export and as an import |
| `AccessLog.RightsFromNowhere` | src/ipc_hooks.cpp:1945-1957 | Failing input: a mapping without rights comes back readable and writable |
| `AccessLog.RightsOfTheFirst` | src/ipc_hooks.cpp:509-528 | Failing input: a second allocation at an address gets the first one's rights, because unmapping does not erase the log |
| `AccessLog.RightsForgotten` | src/ipc_hooks.cpp:552-560 | Failing input: releasing the handle of a live mapping erases its log, so rights of another device are lost |
| `ExportLayout.ExportsTile` | src/ipc_hooks.cpp:1636-1780 | For any mix of devices the saved ranges of the exports tile the interval from 0 to the computed data size |
| `ExportLayout.SavedByDevice` | src/ipc_hooks.cpp:1661-1699 | The exports are saved by device, those without properties first, and then in record order |
| `ExportLayout.RangesApart` | src/ipc_hooks.cpp:1661-1780 | No two saved ranges overlap |
| `IpcProcess.Process.SaveExports` | src/ipc_hooks.cpp:1647-1780 | Every active export's bytes are in the buffer at its recorded offset, and no other record changes; without refusals the save succeeds if and only if the buffer is large enough and every active export can be read |
| `IpcProcess.Process.TeardownExports` | src/vGPU.cpp:892-918 | The export part of a teardown keeps all bytes, takes down exactly the mapped exports and closes exactly the exports' descriptors; a failed one takes none down; without refusals it succeeds if and only if every address that holds data can be read |
| `IpcProcess.SavedIsTorn` | src/ipc_hooks.cpp:1694-1852 | After a teardown every export that was active is down with its bytes at its offset of the buffer |
| `IpcProcess.Process.TeardownImports` | src/ipc_hooks.cpp:1575-1630 | Takes down exactly the imports that are up, with their mappings and handles, and keeps their records |
| `IpcProcess.Process.Teardown` | src/vGPU.cpp:855-918 | From a process that is fully up: everything is down, every export's bytes are kept, every address is free, and no application handle leads anywhere |
| `IpcProcess.Process.BackExports` | src/ipc_hooks.cpp:1892-1967 | Every record that can be rebuilt gets a block of its own that did not exist before, mapped at its address with the rights of its log, and reads from its saved offset or, without one, from behind all before it; a refused one leaves nothing behind |
| `IpcProcess.Process.RestoreData` | src/ipc_hooks.cpp:1987-2034 | Data goes back through the recorded offset of each record whatever the order, and reaches only rebuilt blocks |
| `IpcProcess.Process.Reexport` | src/ipc_hooks.cpp:2046-2076 | Each rebuilt record gets a descriptor of its own block, and the handle tables and the alias lead to the new handle |
| `IpcProcess.RebuiltByDevice` | src/ipc_hooks.cpp:1887-1987 | The new blocks are refilled and exported by device and then in record order |
| `IpcProcess.Process.RebuildAndRestore` | src/ipc_hooks.cpp:1858-2093 | For any mix of records and any refusals: a refused record and one that could not be rebuilt do not change and nothing is mapped for them; every other one with a saved offset and a free address of its own is up on a new block with its range of the buffer and with all rights its log holds, or without a log those of the descriptor it saw last, or without that read-write for its device; when all are such, the application's handles lead to them; every other handle leads to what it led to |
| `Survival.CycleOnce` | src/vGPU.cpp:892-998 | Teardown and export phase over records up, down and never mapped, with any refusals: each mapped record ends up, or down with its address free; without data to save nothing is rebuilt |
| `Survival.SurvivesExactlyWhen` | src/ipc_hooks.cpp:1892-1920 | An export that was up has its bytes after a cycle, at its address or in a buffer, if and only if it was not refused |
| `Survival.CycleMany` | src/vGPU.cpp:892-998 | Whatever is refused in any of any number of cycles, an export that is never refused itself keeps its bytes |
| `Survival.OwnBytesExactlyWhen` | src/ipc_hooks.cpp:1963-1966 | An export that is down finds its own bytes at its saved offset, whatever the bytes of all exports were, if and only if it was up at the last save |
| `Survival.StaleBytes` | src/ipc_hooks.cpp:1718-1966 | The failing run: of two exports of one size the first is refused once; after the next cycle both show the bytes of the second |
| `IpcExport.Publish` | src/ipc_hooks.cpp:2428-2450 | The published block lists the exports with a descriptor among the first 64 |
| `IpcExport.EntriesInOrder` | src/ipc_hooks.cpp:2435-2447 | Entry and record numbers agree if and only if every record looked at has a descriptor |
| `IpcExport.ExportPhase` | src/vGPU.cpp:974-1032 | After a full teardown the export phase brings every export back with its bytes and publishes it under its number |
| `Exchange.ExchangeAll` | coordinator/multi_cr_client.cpp:218-274 | Every peer block is the first 64 entries of the concatenation of all other workers' blocks in shm order |
| `Exchange.ConcatAt` | coordinator/multi_cr_client.cpp:245-261 | The entry at a position of that concatenation is the one its worker put at its own position |
| `Exchange.BlocksApart` | coordinator/multi_cr_client.cpp:195-204 | Both blocks lie between the file table and the payload, so writing one touches neither of those nor the other block |
| `IpcImport.Fetch` | src/ipc_fd_exchange.cpp:315-394 | A fetch gives new descriptors for the blocks asked for, in request order, perhaps fewer |
| `IpcImport.FetchedMore` | src/ipc_hooks.cpp:2504-2523 | Scattering one owner's descriptors gives each entry a duplicate of its own and disturbs no other owner's |
| `IpcImport.FetchAll` | src/ipc_hooks.cpp:2487-2523 | Each entry has a duplicate of its own owner's descriptor or none, all different; without refusals and with all servers up every valid entry has one |
| `IpcImport.LinkOne` | src/ipc_hooks.cpp:2586-2641 | One match closes its descriptor in any case and leaves the import as it was or mapped to the block behind the descriptor, with its recorded rights |
| `IpcImport.ImportFromBlock` | src/ipc_hooks.cpp:2452-2663 | For every outcome, including short fetches, refused imports and different counts, every received descriptor is closed exactly once, each import is as it was or mapped to the block matched with it by position, no other handle is left behind, and nothing else that was mapped has changed |
| `IpcImport.InPosition` | src/ipc_hooks.cpp:2525-2646 | With all entries served and enough of them, import number m gets the block of entry number m |
| `Cluster.PeerEntries` | coordinator/multi_cr_client.cpp:241-261 | A worker's peer block holds the first 64 exports of the other workers, in shm order and export order |
| `Cluster.ImportReads` | src/ipc_hooks.cpp:2566-2646 | In the state a cycle keeps, an import reads the bytes of the export of its number |
| `Cluster.Cycle` | coordinator/multi_cr_client.cpp:559-646 | For any number of workers: tear down everywhere, export everywhere, exchange, import everywhere leaves every export showing its old bytes on a block of its own, every import mapped to the block its own export now has, every mapping whose rights were recorded with the rights it had, and every application handle leading to its memory |
| `Cluster.Cycles` | coordinator/multi_cr_client.cpp:559-646 | That state, all records and all recorded rights survive any number of cycles; after at least one, every application handle leads to its memory wherever the handles were traceable at first |
| `Lifetime.ReleaseAfterCycles` | src/ipc_hooks.cpp:530-588 | After any positive number of cycles, releasing the application's original handle releases exactly the handle that now backs its address, and a second release reaches no live handle |
| `Lifetime.ReleaseAllAfterCycles` | src/ipc_hooks.cpp:530-588 | And releasing every export of a worker, each by its original handle, releases exactly the handles that keep their memory |
| `Lifetime.UnmappedImportReturns` | src/ipc_hooks.cpp:519-523 | Failing run: an import the application has unmapped is mapped again by the next import phase |
| `Lifetime.UnmappedImportTakesPlace` | src/ipc_hooks.cpp:519-523 | Failing run: an unmapped import whose export is gone takes the block of the import behind it, which stays down |
| `HookRuns.Run` | src/ipc_hooks.cpp:355-660 | Whatever a new process calls, in whatever order: every live import record is the one its address leads to, is mapped whole, and its descriptors give the rights of its mapping |
| `Lifetime.CallsLeaveImportsUp` | src/ipc_hooks.cpp:461-528 | After any such run in which no import was unmapped, all imports are up at different addresses, each indexed by its own |
| `HookRuns.ImportAndGrant` | src/ipc_hooks.cpp:443-640 | Importing, mapping and any calls that grant access leave a last import record on the block behind the descriptor, which holds exactly the rights the calls gave |
| `HookRuns.ExportAndGrant` | src/ipc_hooks.cpp:355-660 | The same for creating, mapping and exporting at an address without a log, where the log holds the rights |
| `Pair.Share` | src/ipc_hooks.cpp:355-660 | Two workers that share an allocation and grant access through the hooked calls are in the state a cycle needs, with what they granted on record |
| `Pair.ShareAndCycle` | src/ipc_hooks.cpp:355-660 | From those calls through any number of cycles: both mappings have the rights their calls gave |
| `IpcHooks.HookCreate` | src/ipc_hooks.cpp:355-377 | A new handle, registered if and only if the allocation is shareable; no record changes |
| `IpcHooks.HookExport` | src/ipc_hooks.cpp:379-441 | Every call adds one record, mapped if and only if its handle has an address, which then leads to it; the invariant that every mapped export has saved properties is kept |
| `IpcHooks.HookImport` | src/ipc_hooks.cpp:443-459 | A new handle for the block behind the descriptor, marked as imported |
| `IpcHooks.HookMap` | src/ipc_hooks.cpp:461-507 | A mapping starts an import record, or gives the waiting export records of its handle address and size; the address then leads to the new or to the last of those records; that invariant is kept |
| `IpcHooks.HookSetAccess` | src/ipc_hooks.cpp:590-660 | What was given before and in the call is what the log, and the import record the address leads to, give afterwards; the export record it leads to has seen the first descriptor; nothing else changes |
| `IpcHooks.HookUnmap` | src/ipc_hooks.cpp:509-528 | An import the application unmaps is marked like a torn-down one; nothing else in the tables changes |
| `IpcHooks.HookRelease` | src/ipc_hooks.cpp:530-588 | Releases the handle the application's handle stands for and nothing else; afterwards no table mentions either, and every entry, log and alias that mentions neither is as it was; a refused call changes nothing |
| `IpcHooks.TeardownKeeps` | src/ipc_hooks.cpp:1647-1852 | Every mapped export has saved properties after a teardown, successful or not |
| `IpcHooks.RebuildKeeps` | src/ipc_hooks.cpp:1892-2076 | Every mapped export has saved properties after a rebuild, whatever was refused in it |
| `IpcHooks.ReleaseTwice` | src/ipc_hooks.cpp:530-588 | After a completed rebuild, releasing the application's handle releases exactly the handle that now backs its address; afterwards it stands for nothing live, so a second release fails |
| `IpcHooks.ReleaseEvery` | src/ipc_hooks.cpp:530-588 | After a completed rebuild, releasing the application handles of all exports one after the other releases all of their live handles and no other |
| `IpcHooks.ReleaseAcrossRebuild` | src/ipc_hooks.cpp:2060-2064 | The limit of that: with a rebuild between the two releases, the second one does reach a live handle |
| `IpcHooks.UnmappedAborts` | src/ipc_hooks.cpp:1754-1768 | Failing run: after the application has unmapped one export, the teardown fails and every other export stays mapped with its state |
| `LocalAllocs.OffsetsAgreeExactlyWhen` | src/ipc_hooks.cpp:2149-2166 | The offset rebuild reads from is the offset save wrote to, for every record, if and only if device ids are nondecreasing in handle order |
| `LocalAllocs.SaveLocals` | src/ipc_hooks.cpp:2122-2239 | On the synchronous path one failed copy fails the save; on the pinned path the save goes on without that record's bytes; every other record is saved at its own offset |
| `LocalAllocs.RefusalShifts` | src/ipc_hooks.cpp:2290-2338 | A record's rebuild offset is its place in the sizes of all records if and only if no earlier record was refused |
| `LocalAllocs.OwnBytesExactlyWhen` | src/ipc_hooks.cpp:2290-2338 | For any refusals, a record gets its own bytes back, whatever the bytes of all records were, if and only if the sizes of the records rebuilt before it add up to the offset it was saved at |
| `LocalAllocs.SwappedBytes` | src/ipc_hooks.cpp:2290-2338 | Two allocations of one size on devices out of order are given each other's range of the buffer |
| `LocalRebuild.LocalsOf` | src/ipc_hooks.cpp:2134-2166 | The saved list has the registered allocations that are not exported, each once, in handle order |
| `LocalRebuild.ListedExactlyWhen` | src/ipc_hooks.cpp:2134-2166 | A record is on that list if and only if its handle is registered with its address, size and device and no mapped export has that address |
| `LocalRebuild.TeardownLocals` | src/vGPU.cpp:922-953 | Nothing is taken down unless the save succeeded; then exactly the listed handles and mappings go; it says when the save succeeds on both paths |
| `LocalRebuild.RebuildLocals` | src/ipc_hooks.cpp:2269-2424 | Whatever is refused, only the listed addresses are mapped anew and only the records backed change their table entries; on free addresses each record not refused is up on a new block with the rights of its log and its range of the buffer, and a refused one leaves its address empty |
| `LocalRebuild.LocalCycle` | src/ipc_hooks.cpp:2122-2424 | A whole cycle with any refusals: every local is in the buffer, each record shows its range of it or is gone, and all other mappings and handles are as before |
| `LocalRebuild.RoundTrip` | src/ipc_hooks.cpp:2122-2424 | Without refusals every local is mapped again at its address under one new handle, the list holds the same allocations, exports that are up stay up with their bytes, and with device ids in order each local shows its own bytes |
| `LocalRebuild.RoundTrips` | src/ipc_hooks.cpp:2122-2424 | After any number of such cycles the same allocations are listed and up |
| `LocalRebuild.SwappedRun` | src/ipc_hooks.cpp:2122-2424 | Failing run: after a cycle in which every call succeeded, two allocations of one size on devices out of order show each other's bytes |
| `LocalRebuild.RefusedThenSave` | src/ipc_hooks.cpp:2206-2217 | Failing run: once any local has been refused in a rebuild, the next save on the synchronous path fails |
| `LocalRebuild.ReleaseAfterCycle` | src/ipc_hooks.cpp:2400-2405 | Failing run: after one cycle the application's handle of a local leads nowhere, and its memory stays held under a handle the application was never given |
| `WorkerCycle.Cycle` | src/vGPU.cpp:883-1008 | Exports down, locals down, exports back, locals back, without refusals: every export shows its bytes at its address, the same locals are listed under new handles and mapped at their addresses, with devices in order each shows its own bytes, and the state is one for another cycle |
| `WorkerCycle.Cycles` | src/vGPU.cpp:883-1008 | Over any number of such cycles every export keeps its bytes and the same locals stay listed and up |
| `WorkerCycle.ListingKept` | src/ipc_hooks.cpp:2069-2074 | The export rebuild registers handles for export addresses only, so it neither adds to nor takes from the list of locals |
| `WorkerCycle.AddLocal` | src/ipc_hooks.cpp:355-507 | Creating and mapping shareable memory at a new address keeps that state and adds exactly one local |
| `WorkerCycle.FirstExport` | src/ipc_hooks.cpp:355-441 | A new process that maps and exports an allocation reaches that state |
| `Grouping.GroupedLists` | src/ipc_hooks.cpp:1661-1668 | Grouping by device visits exactly the records that have a group, each once, by device and then in record order |
| `Protocol.HandledExactlyOnce` | coordinator/multi_cr_client.cpp:287-310 | In every interleaving each worker handles each broadcast message exactly once and in order |
| `Protocol.NoOvertaking` | coordinator/multi_cr_client.cpp:287-310 | No worker starts a message before all workers have finished the one before it |
| `Protocol.ActionsAlone` | coordinator/multi_cr_client.cpp:559-646 | Freeze, unfreeze and exchange happen with no handler running and all earlier messages finished everywhere |
| `Protocol.ImportAfterEveryExport` | coordinator/multi_cr_client.cpp:599-646 | A worker imports only after every worker has finished its data restore and its export handler, and after the exchange |
| `Protocol.ImportsReadWhatWasPublished` | src/vGPU.cpp:1010-1051 | Whatever shared memory held before, an import handler reads the block the exchange makes of what all other workers published in this restore |
| `Protocol.FreezeAfterEveryDump` | coordinator/multi_cr_client.cpp:559-594 | With or without the -n flag the freeze comes after every worker's dump and, without the flag, teardown, with no handler running; when the coordinator is done it has happened, once |
| `Protocol.DumpAfterEveryTeardown` | coordinator/multi_cr_client.cpp:559-575 | Without the flag no worker dumps before every worker has finished its teardown; with it none tears down |
| `Protocol.RestoreAfterUnfreeze` | coordinator/multi_cr_client.cpp:599-646 | With or without the flag no worker restores before the unfreeze; with the flag nobody exports, exchanges or imports; when the coordinator is done everybody has done all there was to do |
| `Protocol.EveryRunEnds` | coordinator/multi_cr_client.cpp:287-310 | A run cannot be longer than a bound its first state gives, and one in which nobody can take another step is complete: the coordinator is done and every worker has finished all of the work |
| `Protocol.NoDeadlock` | coordinator/multi_cr_client.cpp:287-310 | As long as the coordinator is not done, it can take a step or the worker it polls can |
| `Freeze.FreezeAction` | coordinator/multi_cr_client.cpp:476-518 | Locking, backing out, checkpointing and unlocking, with its early returns, is exactly the attempt `Try` that the lemmas on `Freeze` are about |
| `Freeze.RestoreAction` | coordinator/multi_cr_client.cpp:521-554 | Restoring and then unlocking everybody, whatever failed, is exactly the attempt `Try` that the lemmas on `Freeze` are about |
| `Freeze.StartDataRestore` | coordinator/multi_cr_client.cpp:599-627 | The coordinator goes on to data restore if and only if the unfreeze reported no failure or buffer-only mode is on |
| `Freeze.AllLockedOrNone` | coordinator/multi_cr_client.cpp:476-518 | From any state a freeze checkpoints nobody unless everybody was running and could be locked |
| `Freeze.FreezeOutcome` | coordinator/multi_cr_client.cpp:476-518 | No failures if and only if everybody is checkpointed; a failed lock leaves everybody running except where the unlock fails too; a failed checkpoint leaves the successful ones frozen and the others running |
| `Freeze.NothingTried` | coordinator/multi_cr_client.cpp:476-490 | In buffer-only mode nobody is touched and nothing fails; without the binary nobody is touched and everybody counts as a failure |
| `Freeze.FailuresCount` | coordinator/multi_cr_client.cpp:409-455 | A round reports as many failures as there are workers whose call failed |
| `Freeze.SmoothThawHeals` | coordinator/multi_cr_client.cpp:521-554 | From any mix of states one restore without glitches leaves everybody running, though it reports failures unless everybody was checkpointed |
| `Freeze.SmoothRuns` | coordinator/multi_cr_client.cpp:476-554 | A run of attempts without glitches is always in one of the two states all running and all checkpointed |
| `Freeze.AlwaysRecovers` | coordinator/multi_cr_client.cpp:476-554 | After any run of attempts one smooth restore and one smooth freeze leave everybody checkpointed |
| `Freeze.DataRestoreFindsAllRunning` | coordinator/multi_cr_client.cpp:599-627 | In any run, data restore never starts with a worker still frozen |
| `Freeze.RestoringAloneNeverStarts` | coordinator/multi_cr_client.cpp:599-627 | As long as some worker is not checkpointed, no number of restores starts data restore |
| `PeerAccess.PeerTable.DisableAll` | src/ipc_hooks.cpp:305-327 | Switches off exactly the tracked devices the driver agrees to, and remembers what was tracked in place of what was remembered |
| `PeerAccess.PeerTable.ReenableAll` | src/ipc_hooks.cpp:329-353 | Switching on enables and tracks exactly the remembered devices the driver accepts; a refused one is neither, and forgotten |
| `PeerAccess.SurvivesExactlyWhen` | src/ipc_hooks.cpp:305-353 | Over any run of switches peer access is kept if and only if no two switches off come in a row; otherwise all of it is gone for good |
| `PeerAccess.CoordinatorLosesPeers` | src/vGPU.cpp:812-815 | The multi-GPU flow switches off twice and loses peer access; the flow without IPC teardown keeps it |
| `Adapter.StorageBuffer.ReleaseBuffer` | adapters/nccl/runtime/gcr_checkpoint_runtime.cpp:61-81 | Everything the buffer holds is given up, each thing once |
| `Adapter.StorageBuffer.AllocateBuffer` | adapters/nccl/runtime/gcr_checkpoint_runtime.cpp:92-151 | It succeeds if and only if no call fails, and then holds the bytes asked for in the kind of memory of the backend; whatever fails on the way, the buffer holds exactly what was acquired and not given up again |
| `Adapter.Runtime.Prepare` | adapters/nccl/runtime/gcr_checkpoint_runtime.cpp:271-342 | Nothing leaks whatever fails; every export that was up has its bytes at its address or in the buffer; one that was down stays as it was over a buffer that holds only the others' bytes |
| `Adapter.PrepareKeepsExactlyWhen` | adapters/nccl/runtime/gcr_checkpoint_runtime.cpp:299-306 | A prepare that replaces the buffer keeps the bytes of an export if it was up; the bytes of one that was down are nowhere it could find them |
| `Adapter.Runtime.RestoreExport` | adapters/nccl/runtime/gcr_checkpoint_runtime.cpp:344-393 | An export whose bytes the buffer held has them afterwards if and only if it was not refused, while the call succeeds either way and gives the buffer up |
| `Adapter.Runtime.OneRun` | adapters/nccl/runtime/gcr_checkpoint_runtime.cpp:271-437 | One prepare and restore in order: nothing leaks, and an export that was up has its bytes wherever the run stops unless it was refused; if it was, and the run completes, its bytes are lost |
| `Adapter.Runtime.Runs` | adapters/nccl/runtime/gcr_checkpoint_runtime.cpp:271-437 | Any number of runs in order, with any refusals: an export that is never refused keeps its bytes |
| `Adapter.Runtime.LossyRun` | adapters/nccl/runtime/gcr_checkpoint_runtime.cpp:353-357 | Failing run: every call succeeds, one export is refused in the rebuild, and its bytes are nowhere |
| `Adapter.Runtime.SkippedExport` | adapters/nccl/runtime/gcr_checkpoint_runtime.cpp:271-437 | Failing run that always completes without refusals: an import without the export before it lets the next prepare throw the bytes of every export away |

## Findings

Properties the code or its comments suggest and does not keep, each with its input and its exact
condition.

- A partly refused rebuild. The export rebuild skips a record the driver refuses and reports how many it
  rebuilt (src/ipc_hooks.cpp:1892-1920); its callers free the buffer all the same. So an export keeps its
  bytes in a cycle if and only if it is not refused (`Survival.SurvivesExactlyWhen`), while every call
  succeeds: `Adapter.Runtime.LossyRun` is such a run, `Adapter.Runtime.OneRun` has the condition.
- Stale offsets. A refused export keeps the offset of the save it was refused after, and the next rebuild
  reads it from a buffer of a later save (src/ipc_hooks.cpp:1963). It finds its own bytes there if and only
  if it was up at the last save (`Survival.OwnBytesExactlyWhen`); `Survival.StaleBytes` is a run in which two
  exports come back with the bytes of one. While no export is up there is nothing to save and no buffer, and
  then none is rebuilt either (`Survival.CycleOnce`, last clause).
- Local allocations on several devices. Save hands out offsets in handle order, rebuild adds sizes up in
  device order (src/ipc_hooks.cpp:2149-2166, 2290-2338). They agree if and only if device ids are
  nondecreasing in handle order (`LocalAllocs.OffsetsAgreeExactlyWhen`); with two ids out of order two
  allocations come back with each other's bytes and every call succeeds (`LocalRebuild.SwappedRun`). One
  refused rebuild also moves every later record's range (`LocalAllocs.RefusalShifts`); for any refusals
  `LocalAllocs.OwnBytesExactlyWhen` has the condition. On the pinned path an unreadable allocation is torn
  down without its bytes and the save still succeeds (`LocalAllocs.SaveLocals`).
- A refused local allocation stays registered under its old handle with an empty address, so the next
  save on the synchronous path fails on it and no local allocation is torn down
  (`LocalRebuild.RefusedThenSave`).
- Handles of local allocations. The rebuild registers the new handle and leaves no alias from the one the
  application holds (src/ipc_hooks.cpp:2400-2405), unlike the rebuild of exports: after one cycle the
  application can no longer release the memory (`LocalRebuild.ReleaseAfterCycle`).
- Copy shape. The comment above `granule_clamp` promises copies aligned at their start or end. That fails
  when the staging buffer ends inside a partial last granule (`Granule.AlignedShapeFails`), and holds
  exactly otherwise (`Granule.AlignedExactlyWhen`).
- Remapping with another size. `remapPhysicalMemory` maps the size it is given under the tracked size of
  the pointer. The extent invariant survives if and only if both round to the same extent
  (`Allocator.AllocatorHook.RemapPhysical`); a shrunken pointer cannot be released or remapped any more
  and its mapping is lost by cudaFree (`Allocator.AllocatorHook.ShrunkPointerIsStuck`).
- Access rights. An empty log means "no call" but is replayed as read-write for the own device
  (`AccessLog.RightsFromNowhere`); unmapping does not erase a log (`AccessLog.RightsOfTheFirst`), releasing
  a handle erases it too early (`AccessLog.RightsForgotten`). The conditions are on
  `AccessLog.Address.RebuildLocal` and `AccessLog.Address.RebuildExport`.
- One export the application has unmapped makes the save of all exports fail, and teardown then leaves
  every export up (`IpcHooks.UnmappedAborts`; the condition is on `IpcProcess.Process.TeardownExports`).
- An import the application has unmapped is marked like one that was torn down (src/ipc_hooks.cpp:519-523).
  The next import phase maps it again (`Lifetime.UnmappedImportReturns`), and when its export is gone it takes
  the place of the import behind it (`Lifetime.UnmappedImportTakesPlace`). `Cluster.Cycle` starts from states
  without such records.
- Handles released before a checkpoint. The rebuild gives the released handle an alias to a new live
  handle (`IpcHooks.ReleaseAcrossRebuild`), which the application, having released it, has no reason to
  release again.
- A partly failed freeze. As long as one worker is not checkpointed, restoring alone never gets to data
  restore, even when it leaves everybody running (`Freeze.RestoringAloneNeverStarts`,
  `Freeze.SmoothThawHeals`): the released memory stays released until a freeze succeeds.
- Peer access. The multi-GPU flow switches it off in the teardown and again in the dump, and the second
  time forgets what to switch on again (`PeerAccess.CoordinatorLosesPeers`).
- Adapter. A prepare after a failed prepare, or after an import without an export, replaces the buffer with
  the only copy of torn-down exports; it keeps exactly the bytes of the exports that are up
  (`Adapter.PrepareKeepsExactlyWhen`), and `Adapter.Runtime.SkippedExport` is a run that loses them all.
- The header comment of the IPC code says that addresses are freed at teardown; the code keeps the
  reservations (src/ipc_hooks.cpp:1615-1616, 1833-1834), and so does the model.

## Left out

- Symbol interception, kernel-launch and context hooks: dynamic linking and foreign calls. The model
  starts from the hook bodies.
- The sockets of src/ipc_fd_exchange.cpp: a fetch returns duplicates in request order, perhaps fewer, or
  nothing. That every server is up during the import phase is an assumption of `Cluster.Cycle`. A worker
  stops its own server after its own imports (src/vGPU.cpp:1055-1057), so a slower peer's fetch can find it
  gone; `IpcImport.ImportFromBlock` covers what happens then.
- Timeouts and handlers that exit: `Protocol.EveryRunEnds` is about handlers that run to their end. A handler
  that exits is a method that returns false, without a claim about the state it leaves; the coordinator then
  polls for ever.
- Asynchronous signal safety, weak memory ordering and mutexes: mailbox words are sequentially consistent
  and a worker has one request at a time.
- `Cluster.Cycle`: the workers of one phase run one after another. Their handlers work on their own tables
  and on new blocks only, and `Protocol` has the interleavings of the phases.
- `Cluster.Cycle`: application kernels do not write during a cycle, and the application calls no hook in
  between. Workers must share exports as a prefix, in creation order, of their peers' exports, of which a
  peer block holds 64; the code has no other way to tell imports apart.
- Handles are never reused within a process. The tables rely on it too: a new key is written before the
  old one is erased (src/ipc_hooks.cpp:2400-2403).
- Calls to cuMemUnmap and cuMemRelease in `Allocator` are refused only where the driver cannot carry them
  out; in `IpcProcess` any of them may be refused. Access grants of a rebuild are never refused.
- `Fabric`: an address stands for the reservation that starts there, a mapping starts at the beginning of
  its block, and a block is never returned to the driver, so what an unreachable block costs is not
  modelled.
- `ExportLayout.Alloc`: the recorded size of an export and its mapped size are one number, as for
  allocations mapped as a whole.
- `Fabric`: access rights are recorded, granted and compared, but reading and copying through an address
  does not ask for them. So a copy from an address that was never granted to its own device is carried out
  here and refused by a driver.
- `Allocator.AllocatorHook.Malloc`: addresses do not run out; there is always a free range.
- `LocalRebuild`, `WorkerCycle`: the cycle theorems start from locals that are mapped whole at addresses of
  their own. What a handle number is, is up to the driver, so whether device ids are in order again after a
  cycle is not known. `WorkerCycle.Cycle` starts with the imports down; they are part of `Cluster.Cycle`,
  which in turn has no locals.
- `Adapter`: the runtime's imports, events and local bytes are calls that succeed or fail; what they do is in
  `IpcProcess`, `IpcImport` and `LocalRebuild`. Its export block and descriptor server are left out.
- Several streams within one save or rebuild of the IPC data, pinning of host buffers and context
  switches: copies are carried out in the order they are issued.
- IPC events (torn down, never rebuilt), the legacy cudaIpc calls, toggle mode of cuda-checkpoint, which
  flips blindly, the AMD backend, the single-GPU command-line client, validation, timing and logging.
- 64-bit wrap-around of addresses and sizes, and partial failures of the file system.
