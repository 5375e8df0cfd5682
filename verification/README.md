# BBView, verified

BBView buffers the writes of an MPI-IO file view. While a view is active a
handle writes to a linear staging file. A flush stores the view in the file's
extended attributes and sends the file's name to a daemon, whose workers replay
the bytes into the destination through the stored view. This project models
that path in Dafny and proves what it promises, first of all that write-behind
leaves the destination as writing straight through the views would have.

`dafny verify dfyconfig.toml` checks everything.

| file | models |
|---|---|
| `AddressMap.dfy`, `ViewShape.dfy` | the byte stream of a file view and its file offsets; ascending views, whole etypes, the staging view |
| `Walker.dfy` | the resumable walk that turns stream bytes into file ranges |
| `Offsets.dfy`, `EndOfFile.dfy` | the byte offset of an etype offset, and the end-of-file search |
| `HeapSort.dfy`, `Adjacency.dfy` | the index heap sort of file ranges, the matrix of neighbouring processes and its compressed rows |
| `DirectIo.dfy`, `DirectIoNodes.dfy`, `Distribution.dfy` | the decision for direct I/O over a tree of MPI datatypes, the same node by node, and distributed dimensions |
| `Storage.dfy`, `Replay.dfy`, `Worker.dfy` | files, writes through a view, write-behind, the replay loop, a worker's step |
| `Attributes.dfy`, `StagingName.dfy` | the attributes a staging file carries, and its name |
| `Handle.dfy`, `HandleObject.dfy` | the handle's state machine over whole runs, and the object the calls update in place |
| `JobQueue.dfy`, `Threads.dfy` | what the listener makes of a message, the daemon's linked queue, and its threads interleaving |
| `Shutdown.dfy`, `WakeUps.dfy` | how much is left of a shutdown, and the mutex and signals that decide whether it ends |
| `Disk.dfy`, `Daemon.dfy` | jobs and destination files, and the daemon replaying files from a directory that others may change |
| `Sections.dfy`, `Node.dfy` | views with their writes, and any number of handles over one staging directory with the daemon |
| `EndToEnd.dfy`, `Completion.dfy`, `Reopening.dfy` | all of it together, that every run can be completed, and what a staging name used twice does |
| `Arith.dfy`, `Paths.dfy`, `Wrappers.dfy` | arithmetic facts, path buffers, values that may be missing |

The reference for the address map is the definition of a file view (section
13.3 of MPI 3.1): the filetype's bytes in block order, one copy every extent.
`AddressMap.Expand` writes that out byte by byte; the walker, the closed form
and every write are proved against it.

Assumptions. Machine integers are unbounded. A view has a positive size, the sum
of its block lengths; blocks may be empty except where a member says otherwise.
An etype is as long as its extent. Reads of regular files are full reads. A
write through a view puts consecutive bytes into the ranges the walker emits.
Unpacking a packed datatype description gives the datatype back. A file is a
map from offsets to the bytes ever written; what was never written reads as
zero. Outcomes of outside calls (attribute writes, sockets, opens, file system
answers) are parameters. The first slots of the walker's array,
`OMPIO_IOVEC_INITIAL_SIZE`, are a parameter as well: Open MPI's headers are not
part of this model.

## Where the code does less than it says

Each has a lemma with the exact condition, and one at an input.

- `view_index` starts at 0 with every open (io_bbview_component.c:295) and all
  handles of a node share one staging directory, so a file that is opened again
  (or opened by two processes of rank 0) takes staging names a second time and
  empties files that still wait for the daemon
  (`EndToEnd.ActivationDisturbsExactly`, `Reopening.ReopeningAtAnInput`).
- Two destinations whose names differ only in a slash and a dash share staging
  names (`StagingName.NamesCollideExactly`, `StagingName.SlashesCollide`).
- `mca_io_bbview_file_get_byte_offset` can stop on an empty block and answer
  with that block's base (`Offsets.GetByteOffset`, `Offsets.EmptyBlockMisleads`).
- The comment at io_bbview_file_open.c:415-420 promises the closest offset at or
  before the input that lies in no gap and breaks no etype. The search reads the
  length of the following block, takes an empty block for a place of the view,
  and starts from 0 in the gap before the first block of any copy
  (`EndOfFile.EofIsRight`, `EndOfFile.FollowingLengthMisleads`,
  `EndOfFile.EmptyLastMisleads`, `EndOfFile.LaterGapMisleads`; by chance right
  in `EndOfFile.LaterGapHits`).
- `enable_directio` takes on trust what constructors its switch does not list
  stand for, and rounds the default block of a distributed array down where MPI
  rounds it up (`DirectIo.SoundExactly`, `DirectIo.BlockDecisionIsRight`,
  `DirectIo.UnlistedMisleads`, `DirectIo.UnevenBlocksMislead`). It turns down
  types whose runs fit only where they touch (`DirectIo.EnableIsExact`,
  `DirectIo.TouchingRunsAreTurnedDown`).
- The daemon can answer "done" with jobs still queued, if terminate is read
  before any worker has counted itself (`Threads.DoneMeansDrainedExactly`,
  `Threads.DoneWithAJobQueued`).
- The shutdown flag is set and the workers are woken without the mutex
  (bbviewd.c:320-323), so a worker that stands between its look at the flag and
  its wait (bbviewd.c:79-80) sleeps for good, and the daemon is never joined and
  never answers (`WakeUps.ShutdownEndsExactly`, `WakeUps.WaitsForGood`).
- A failed `accept` ends the listener without setting the flag
  (bbviewd.c:303-309): the workers are waited for without end
  (`Threads.FailedAcceptNeverEnds`; with the flag set it is the case above that
  decides).
- Replaying a staging file with holes writes zeros (`Storage.WriteBehindExactly`,
  `Storage.HoleMisleads`).
- Chunks left over from an earlier, longer description are read along
  (`Attributes.ReassemblyIsExact`, `Attributes.LeftoverMisleads`).
- A failed open in `set_view` leaves state and descriptor apart
  (`Handle.DescriptorInvExactly`, `Handle.FailedOpenMisleads`).
- The recorded ranges are sorted by Open MPI's copy of the sort
  (io_bbview.c:271), not by the one in this file; the matrix is modelled on a
  sorted order, the sort on its own.

## Model

| member | source | states |
|---|---|---|
| EndToEnd.WriteBehindIsWriteThrough | bbviewd.c:193-210 | for any number of handles opened, used and closed over one staging directory while any number of workers replay, in every interleaving, with flushes failing and retried: if no activation takes a staging name in use and the machine runs to its end with nothing skipped, every section of every closed handle has arrived once, and every file is what the sections' writes leave made straight through their views in hand-over order (one worker, or sections whose bytes do not meet) |
| Completion.EveryRunCanEnd | bbviewd.c:237-271 | every orderly run of handles and daemon in which nothing was skipped can be completed without any client moving: all names sent are delivered, every byte handed over is replayed and all workers are joined, as long as the listener still accepts or stopped after the last name |
| Completion.WorkerCanFinish | bbviewd.c:193-217 | a busy worker whose file is left alone can always open, read and write its job to the last byte by itself |
| EndToEnd.ActivationDisturbsExactly | io_bbview_file_set_view.c:441-469 | a new view leaves a section that another handle still writes or has handed over in its file, and the job of one handed over as it is, if and only if dashed file name, rank and view number are not all the section's, or the section has no byte |
| Reopening.ReopeningEmptiesWhatIsQueued | io_bbview_component.c:294-295 | open, set_view, write, close, open and set_view again, before the daemon reads the first name: the file on its way is empty and the write is lost, for every session, view and write |
| Reopening.ReopeningAtAnInput | io_bbview_file_set_view.c:447-469 | such a run of one byte of one file |
| Node.LiveFilesAreIntact | bbviewd.c:243-265 | at every state with the invariant, each name handed over and not over still leads to the destination, view and bytes of the section it was sent for |
| Node.RunKeepsInv | io_bbview_file_set_view.c:372-475 | over every orderly run of clients and daemon together: live sections keep their own files, each section is handed over once and in its handle's order, and each name arrives in turn |
| Node.RunReplays | bbviewd.c:193-210 | at every moment of every orderly run the disk is what the bytes written so far of the delivered sections leave, section after section |
| Node.DaemonMoves | io_bbview_file_flush.c:129-148 | seen from the daemon a client's call only changes the directory, and a name arrives as it was sent |
| Storage.WriteBehind | bbviewd.c:172-210 | for writes in any order and overlapping, replaying the hole-free staging file equals applying each write through the view |
| Storage.WriteBehindExactly | bbviewd.c:193-210 | with holes, replay reads the same as writing through if and only if the destination reads zero at every hole's place |
| Storage.HoleMisleads | bbviewd.c:193-210 | two bytes with a hole between them, replayed over a 9 that becomes 0 |
| Storage.OutsideUnchanged | io_bbview.c:97-113 | writes through a view change no byte outside the view's image |
| Storage.WriteViewSplit | io_bbview.c:65-118 | writing on where a write ended is one longer write |
| Storage.StagedIsStream | io_bbview_file_set_view.c:474-475 | the staging file, written through etype over etype from 0, holds each stream byte at its own offset |
| Storage.StagedIsWhole | bbviewd.c:195-203 | writes of whole etypes leave a staging file of whole etypes, so the replay drops nothing |
| Replay.Execute | bbviewd.c:172-217 | the buffer loop leaves one write through the saved view of all bytes but those after the last whole etype: each of them stands where the view puts it, and if the staging file holds the proper writes of a section the file is what those writes leave made straight through the view |
| Replay.ReplayedArrives | bbviewd.c:193-210 | the same of the bytes that are to be replayed, whatever loop writes them |
| Replay.WriteOn | io_bbview.c:65-118 | a write at the handle's own place fills the walker's ranges and is the write through the view at that stream position |
| Replay.ChunkSize | bbviewd.c:172-203 | a turn writes whole etypes only, and none exactly when less than one is left |
| Replay.ChunkFillsBuffer | bbviewd.c:172-203 | a turn writes 4 MiB, rounded up to whole etypes at most, or all whole etypes that are left |
| Worker.Work | bbviewd.c:100-265 | nothing is written unless the destination exists and every attribute can be read; then each whole etype staged is where displacement, extent and blocks of the saved view put it, and the proper writes of a section are made |
| Walker.FileView.Generate | io_bbview.c:65-118 | from any place reached, with empty blocks or without, the ranges expand to exactly the next stream bytes' addresses, the array grows without losing entries, the loop ends, and the fields stand for the new position |
| Walker.FileView.Turn | io_bbview.c:70-114 | a turn that emits nothing comes closer to the next non-empty block |
| Walker.FileView.Advance | io_bbview.c:83-95 | stepping to the next block, or round to the next copy, keeps the stream position and the ranges so far |
| Walker.TwoWalks | io_bbview.c:83-116 | a walk of a bytes and then one of b give the addresses and the final offset, index, position and total of one walk of a + b, across any number of block ends and copies |
| Walker.CursorDetermined | io_bbview.c:111-116 | after a non-empty walk the four fields are determined by the stream position alone |
| Walker.EmptyViewEmitsNothing | io_bbview.c:70-113 | in a view without bytes no turn ever emits any, so positive size is needed for the loop to end |
| AddressMap.ExpandAt | io_bbview.c:97-99 | byte k of block j lies at the block's base plus k, after all bytes of earlier blocks |
| AddressMap.AddressesInBlock | io_bbview.c:97-109 | stream bytes inside one block of one copy are one contiguous file range |
| ViewShape.AddrGap | io_bbview_file_open.c:544-576 | with ascending blocks whose copy fits its extent, stream bytes t - s apart lie at least t - s apart in the file |
| ViewShape.AscendingIsInjective | io_bbview_file_open.c:544-576 | such a view puts no two stream bytes at one offset |
| ViewShape.EtypeContiguous | io_bbview_file_open.c:544-576 | with blocks of whole etypes the bytes of an etype stay together |
| ViewShape.EtypesApart | io_bbview_file_open.c:544-576 | consecutive etype offsets map at least an etype apart, within a block, across blocks and across copies |
| ViewShape.StagingViewIsLinear | io_bbview_file_set_view.c:474-475 | the staging view maps every stream byte to itself |
| Offsets.GetByteOffset | io_bbview_file_open.c:529-580 | 0 for an empty view, an error for a negative copy offset, else the closed form, which is the address map if and only if the first empty block at the byte, if any, is based where the byte's own block is |
| Offsets.FindBlock | io_bbview_file_open.c:552-570 | the search stops at the first block that holds the byte or is entered with nothing left, never past the last |
| Offsets.ClosedFormIsAddr | io_bbview_file_open.c:557-576 | the closed form at the block the search stops at is the address map under that condition on the blocks, and only then |
| Offsets.EmptyBlockMisleads | io_bbview_file_open.c:559-565 | a view on which the search answers with an empty block's base |
| Offsets.WalkIsClosedForm | io_bbview_file_open.c:544-576 | on non-empty blocks every byte of a walk is emitted where the closed form with etypes of one byte puts it |
| EndOfFile.GetEofOffset | io_bbview_file_open.c:410-457 | nothing for an empty view, else what the two loops search; over all copies that is the greatest offset at or before the input that is an etype boundary of a block with bytes, if and only if the located block leads to it, or one chance hit in the gap before a copy's first block |
| EndOfFile.AnswerIs | io_bbview_file_open.c:423-452 | in closed form, in and out of gaps: the answer goes on by whole etypes from the last block of the input's copy at or before it, as far as the length of the block after that and the input allow, or from 0, and is never past the input |
| EndOfFile.LocateBlock | io_bbview_file_open.c:434-447 | the first loop finds the last block at or before the input and leaves the index whose length is read |
| EndOfFile.EofIsRight | io_bbview_file_open.c:415-452 | the condition, which can be tested on the view and the input, is exact, empty blocks included: a block with bytes is located and the following length makes no difference, or an empty one that stands where whole etypes end and nothing is added, or in the gap the first block, moved to 0, would end in the input's etype |
| EndOfFile.EqualLengthsAreRight | io_bbview_file_open.c:415-452 | for blocks of one length, the first at 0, the answer is right for every input |
| EndOfFile.FirstGap | io_bbview_file_open.c:434-447 | in the first copy's gap no etype boundary lies at or before the input, and the answer lies in the gap |
| EndOfFile.FollowingLengthMisleads | io_bbview_file_open.c:448-451 | a block of ten bytes cut short by the following block's two |
| EndOfFile.EmptyLastMisleads | io_bbview_file_open.c:434-452 | an empty block in a gap answered with 50, where 10 is right |
| EndOfFile.BlockStartIsAddr | io_bbview_file_open.c:438-443 | the starts the search compares are where the address map puts the blocks |
| EndOfFile.LaterGapMisleads | io_bbview_file_open.c:423-446 | an input between two copies answered with 10, where 20 is right |
| EndOfFile.LaterGapHits | io_bbview_file_open.c:423-446 | the chance hit the condition allows for |
| HeapSort.SortOffLen | io_bbview.c:423-524 | sorted is a permutation of the indices, the entries' offsets taken through it never decrease, the build swaps fewer than n times and the sifts of the extraction at most the sum of floor(log2 i); its n - 1 root exchanges come on top |
| HeapSort.SiftDown | io_bbview.c:452-476 | sifting fills the one hole, touches nothing behind the heap, and makes t swaps with 2^t * (j+1) <= N |
| HeapSort.BuildHeap | io_bbview.c:447-477 | the build leaves a heap after at most n - 1 swaps |
| HeapSort.Extract | io_bbview.c:479-517 | the extraction puts the entries in order within its swap budget |
| HeapSort.HeightsBound | io_bbview.c:447-477 | the heights of all subtrees of a heap add up to less than its size |
| HeapSort.HeightBounds | io_bbview.c:452-476 | a position doubled t times within n entries has t at most its height |
| HeapSort.LogIsFloor | io_bbview.c:479-516 | the budget's logarithm is the floor of log2 |
| HeapSort.LogSumIs | io_bbview.c:479-516 | for m = n - 1 that sum is (m + 1) * floor(log2 m) - 2^(floor(log2 m) + 1) + 2 |
| HeapSort.PermutationIsOnto | io_bbview.c:442-445 | every index occurs in a permutation, none is lost |
| Adjacency.Build | io_bbview.c:275-280 | cell (p, q) is the number of places in file order where an entry of p is followed by one of q, plus the number of those the other way round; all cells add up to 2 * (tot_entries - 1) |
| Adjacency.CountsAreSymmetric | io_bbview.c:275-280 | the matrix is symmetric |
| Adjacency.Compress | io_bbview.c:283-371 | the arrays of size m are filled exactly, row_index starts at 1 and ends at m + 1 |
| Adjacency.CompressedRoundTrip | io_bbview.c:356-371 | decoding values, column_list and row_index gives the matrix back |
| Adjacency.ColumnsIncrease | io_bbview.c:359-371 | within a row the column indices strictly increase and the values are positive |
| DirectIo.SoundExactly | io_bbview_file_set_view.c:64-341 | for every accepted tree without zero counts: all its runs of bytes are multiples of the page size and at least the threshold if and only if the runs of each unlisted constructor are, and this process's block is empty or fits wherever a distribution was decided by its block |
| DirectIo.RightIsSound | io_bbview_file_set_view.c:64-341 | one direction for every accepted tree, zero counts included |
| DirectIoNodes.AcceptedExactly | io_bbview_file_set_view.c:64-341 | for every tree: it is accepted if and only if every type it is built of, at any depth, passes its own test (no zero count, nothing turned down unseen, each predefined base big enough alone or in the runs looked at), and a predefined type is big enough |
| DirectIoNodes.AcceptedThroughout | io_bbview_file_set_view.c:64-341 | nowhere in an accepted tree is there a resized or Fortran 90 type or a zero count, and a distribution that is neither by block nor none has an accepted base |
| DirectIo.EnableIsSound | io_bbview_file_set_view.c:64-341 | in particular with even block distributions, where what an unlisted constructor stands for fits |
| DirectIo.EnableIsComplete | io_bbview_file_set_view.c:64-341 | a type without zero counts or sizes, and without the constructors turned down unseen, is accepted once all its unmerged runs fit |
| DirectIo.EnableIsExact | io_bbview_file_set_view.c:64-341 | such a type with even block distributions is accepted if and only if every unmerged run of bytes fits |
| DirectIo.AcceptedSizeIsPages | io_bbview_file_set_view.c:64-341 | under the same condition an accepted type's size is a multiple of the page size |
| DirectIo.RunsAddUp | io_bbview_file_set_view.c:79-324 | the runs of a type add up to the size MPI's arithmetic gives it |
| DirectIo.BlockDecisionIsRight | io_bbview_file_set_view.c:313-320 | a distribution accepted by its block: the runs of all processes fit if and only if MPI's own block is the one looked at, or fits, and the remainder fits |
| DirectIo.FitsForAllIs | io_bbview_file_set_view.c:282-324 | the runs of all processes fit if and only if all blocks of the fastest dimension do, each being some process's |
| DirectIo.PiecesFitExactly | io_bbview_file_set_view.c:313-320 | the blocks of all processes fit if and only if the full block and the remainder do |
| Distribution.DealtOutWhole | io_bbview_file_set_view.c:282-324 | the pieces of a dimension that all processes hold, in blocks or round by round, add up to the dimension |
| Distribution.RankRoundTrip | io_bbview_file_set_view.c:282-324 | the coordinates by which a distribution gives a process its pieces determine the process, in C order |
| DirectIo.UnevenBlocksMislead | io_bbview_file_set_view.c:315-318 | an accepted distribution whose first process holds a run that does not fit |
| DirectIo.UnlistedMisleads | io_bbview_file_set_view.c:79-335 | a type around a constructor outside the switch that is accepted with a run of one byte |
| DirectIo.MergedRunsFit | io_bbview_file_set_view.c:64-341 | whichever runs of an accepted type touch in the file, the runs taken together fit as well |
| DirectIo.TouchingRunsAreTurnedDown | io_bbview_file_set_view.c:101-128 | two touching halves of a run that fits are turned down |
| Attributes.SetXattrs | io_bbview_file_flush.c:43-95 | the attribute writes made are a prefix of destination, displacement, chunks, etype, and success means all of them |
| Attributes.EntriesAre | io_bbview_file_flush.c:57-92 | the attribute writes one by one: destination, displacement, stretch i of 64 KiB of the filetype under number i, and the etype last |
| Attributes.SetChunks | io_bbview_file_flush.c:69-86 | the chunk loop writes the numbered chunks of the description in order |
| Attributes.Reassemble | bbviewd.c:133-149 | for any attributes the reassembly stays inside its buffer and holds the readable chunks up to the first missing one |
| Attributes.ReassembledExactly | bbviewd.c:133-149 | for any attributes the description is all numbered chunks before the first that is missing or too long, 64 at most, and there is none exactly if chunk 0 is |
| Attributes.ReadBackExactly | bbviewd.c:117-153 | a worker reads the view if and only if all four names are there and no value is longer than its buffer |
| Attributes.ReassemblyIsExact | bbviewd.c:134-149 | the daemon reassembles exactly what was flushed if and only if it fits 4 MiB and no bytes are left over under later numbers |
| Attributes.LeftoverMisleads | bbviewd.c:134-149 | one byte flushed, two bytes reassembled |
| Attributes.ViewRoundTrip | io_bbview_file_flush.c:57-92 | a worker reads back destination, displacement, etype and filetype as the handle saved them |
| Attributes.ChunkNamesDiffer | io_bbview_file_flush.c:76-76 | numbered attribute names are injective |
| Attributes.DecimalExactly | io_bbview_file_flush.c:76-76 | a number is printed as the one row of digits that stands for it without a leading zero |
| Attributes.ChunkNamesClashWithNone | io_bbview.h:88-91 | a numbered name is none of the other attribute names |
| Attributes.DispRoundTrip | io_bbview_file_flush.c:63-63 | a 64-bit displacement survives its eight bytes, negative ones too |
| Attributes.DispBytes | io_bbview_file_flush.c:63-63 | byte i of a displacement is what is left of it without the i lower bytes, in two's complement |
| StagingName.BuildName | io_bbview_file_flush.c:117-122 | the in-place rewrite turns slashes from the second character of the file name on into dashes, in a name cut to the buffer |
| StagingName.NameExactly | io_bbview_file_set_view.c:441-446 | every letter of a name, cut or not: directory, slash, file name, rank and view number between dashes, with slashes from the file name's second letter on turned into dashes |
| StagingName.NamesCollideExactly | io_bbview_file_set_view.c:441-446 | two names that fit are equal if and only if dashed file name, rank and view number are |
| StagingName.SlashesCollide | io_bbview_file_set_view.c:443-446 | two file names that share all their staging names |
| StagingName.NameIsOneComponent | io_bbview_file_flush.c:117-122 | the rewritten name has no slash after the first character of the file name, also when cut |
| Handle.EachViewHandedOnce | io_bbview_file_set_view.c:372-433 | from open to a successful close each activated view of a handle is handed over once, in increasing order, by the name of a file that carries its disp, etype and filetype and holds just its bytes |
| Handle.RunKeepsInv | io_bbview_file_set_view.c:372-475 | over every run with failing and retried flushes, descriptor and state agree, all sections' bytes stay in their own files, and exactly the closed sections are handed over |
| Handle.FlushKeeps | io_bbview_file_flush.c:98-154 | a flush hands over one section more, or fails and can be repeated |
| Handle.ActivateKeeps | io_bbview_file_set_view.c:407-475 | a new view starts with an empty file of its own and leaves the others alone |
| Handle.FallbackIsKept | io_bbview_file_open.c:330-358 | whatever the outside world does, FALLBACK is never left and the view number never goes down |
| Handle.AtomicFromThenOn | io_bbview_file_open.c:346-356 | after atomic mode was asked for and not refused, granted or not, no run stages or hands over anything |
| Handle.AtomicStep | io_bbview_file_open.c:330-358 | no call, however it ends, leaves a handle in atomic mode that is not in fallback |
| Handle.AtomicityIsLastGranted | io_bbview_file_open.c:318-377 | over every run atomic mode is the flag of the last call that found no view active, all processes agreed and the file system willing |
| Handle.FallbackNeverStages | io_bbview_file_set_view.c:393-396 | in any run after falling back no staging file is written and nothing is handed over |
| Handle.FlushSucceedsExactly | io_bbview_file_flush.c:98-154 | a flush succeeds if and only if no view is active, or all attribute writes and the send go through |
| Handle.FlushWritesExactly | io_bbview_file_flush.c:43-95 | a flush of the active view, successful or not, sets as many of its attributes as the outside world lets it, in their order, and leaves the others and all data alone |
| Handle.SuccessfulSetView | io_bbview_file_set_view.c:374-475 | success hands an active view over and leaves, if displacement is 0 and etype and filetype are MPI_BYTE, the destination, otherwise an empty staging file of the next number with the new view saved |
| Handle.SetViewExactly | io_bbview_file_set_view.c:353-475 | on every handle a run can reach: exactly when each code is returned, which state the handle is in then, and when the view number goes up; a refused call, or one in fallback, changes nothing |
| Handle.CloseExactly | io_bbview_file_open.c:79-110 | close succeeds if and only if no view is active or the active one can be flushed, so always on a handle that never set a view; without an active view it only closes |
| Handle.DescriptorInvExactly | io_bbview_file_set_view.c:374-472 | set_view keeps descriptor and state together if and only if the open it reaches succeeds and the datatypes could be described |
| Handle.FailedOpenMisleads | io_bbview_file_set_view.c:467-472 | an open that fails leaves an active view without a file |
| Handle.HandedFilesAreFinal | io_bbview_file_set_view.c:397-475 | no later call touches a file that was handed over, whatever its outcome |
| HandleObject.BBViewHandle.Flush | io_bbview_file_flush.c:98-154 | on a valid handle with an active view one section more is handed over by its own name and carries its view, or none and the flush can be repeated |
| HandleObject.BBViewHandle.SetView | io_bbview_file_set_view.c:344-479 | keeps the handle valid; success leaves the destination if displacement is 0 and etype and filetype are MPI_BYTE, and otherwise the new view active on an empty staging file of the next number, with all earlier views handed over |
| HandleObject.BBViewHandle.SetAtomicity | io_bbview_file_open.c:318-362 | keeps the handle valid, and atomic mode and staging apart; succeeds if and only if no view is active, the processes agree and atomic mode is supported if asked for, and only then switches it; a refused call changes nothing |
| HandleObject.BBViewHandle.Write | io_bbview_file_set_view.c:474-475 | under an active view the write is in the view's own staging file, on top of the earlier ones, and the handle stays valid |
| HandleObject.BBViewHandle.Close | io_bbview_file_open.c:79-110 | keeps the handle valid; success means every view was delivered once, in order, in a file of its own, and closes; without an active view it succeeds |
| JobQueue.Queue.Enqueue | bbviewd.c:54-73 | the linked list gains the cut path at its end and stays well linked |
| JobQueue.Queue.Dequeue | bbviewd.c:75-96 | the first path is taken, or the list is empty; head and tail are null together |
| JobQueue.Serve | bbviewd.c:54-96 | any sequence of critical sections serves what a plain sequence serves, first in first out, and takes in each path that was put, cut to the buffer, in order |
| JobQueue.ServedOneMore | bbviewd.c:54-96 | what a plain sequence serves, call by call: a put brings nothing out, a take the next of all paths there were or were put, if any is left |
| JobQueue.ReceiveExactly | bbviewd.c:312-333 | for every message: passed over if and only if empty, the command if and only if it begins with the nine letters, otherwise its first line, cut to the buffer |
| JobQueue.WaitTerminates | bbviewd.c:373-373 | the message of bbviewd wait, newline included, is the command |
| JobQueue.NameArrivesExactly | bbviewd.c:312-333 | a name is queued as sent if and only if it is one line shorter than the buffer that is not the command |
| Disk.ChunkInItsTurn | bbviewd.c:193-210 | bytes written now could have been written in their job's turn, if later jobs have not begun or their bytes do not meet it |
| Disk.ReplayOnFile | bbviewd.c:187-210 | replaying a job is the write through its view of its destination, and of no other file |
| Threads.InvStep | bbviewd.c:54-96 | every event keeps: jobs handed out once and in order, each with one worker until it is over, the active count, and that workers leave only on an empty queue after the flag |
| Threads.JoinedIsDrained | bbviewd.c:434-436 | when all workers are joined every accepted job is over, and nothing can be enqueued |
| Threads.NothingAfterLeaving | bbviewd.c:78-85 | from the moment a worker leaves its loop the queue is and stays empty and nothing is accepted |
| Threads.DoneMeansDrainedExactly | bbviewd.c:320-343 | once terminate is read, "done" implies drained in every continuation if and only if a worker has started or the queue is empty |
| Threads.DoneWithAJobQueued | bbviewd.c:320-343 | a run that answers "done" with a job in the queue |
| Threads.FailedAcceptNeverEnds | bbviewd.c:303-309 | after a failed accept nothing is accepted, no worker ever returns, and no run joins the daemon or answers |
| Shutdown.EventCounts | bbviewd.c:237-271 | once the flag is set each event of the threads is one less to go of a number that is known beforehand |
| WakeUps.ShutdownEndsExactly | bbviewd.c:75-96 | with the mutex and the signals: if no worker stands between its look at the flag and its wait when all are woken, every run ends after a known number of events with all workers joined, "done" sent and every accepted job over, and can go on until then; otherwise no run ever joins or answers |
| WakeUps.WaitsForGood | bbviewd.c:320-323 | a run after which nothing can happen any more, a worker still asleep |
| WakeUps.NoJobForgotten | bbviewd.c:54-81 | while a job is queued some worker runs, was signalled, or has yet to start |
| Daemon.ThreadsMove | bbviewd.c:237-271 | the daemon that reads, replays and skips moves its threads only as the threads alone can move |
| Daemon.ProgressStep | bbviewd.c:172-210 | while staging files are left alone, every event keeps each worker reading its own job's next whole etypes, and a job over and not given up is replayed to its end |
| Daemon.UnreadableIsSkipped | bbviewd.c:243-261 | a worker whose file cannot be read can do nothing about its job but skip it, which writes nothing and ends the job |
| Daemon.ReplayIsConfluent | bbviewd.c:193-210 | for any interleaving of reading buffers and writing any parts of them, the disk is at every moment as if the jobs had been replayed, as far as they have come, in the order accepted (one worker, or jobs whose bytes do not meet) |
| Daemon.JoinedIsReplayed | bbviewd.c:237-271 | joined with nothing skipped, the disk is that of the jobs run one after another |

## Left out

- Machine arithmetic: wrap-around of sizes, counts and offsets is not modelled.
- Open MPI's own routines, real files, sockets, `realpath` and `stat`: parameters or assumed contracts.
- io_bbview_file_read.c, io_bbview_file_write.c, io_bbview_component.c, io_bbview_module.c and the parameter lookup in io_bbview.c: thin wrappers that would only add easy members.
- `preallocate`, `set_size`, `sync`, `get_view`, `seek` and the shared file pointer: easy, or decided by hidden routines.
- Writes outside an active view: they go to the destination through Open MPI and race with pending replays.
- WakeUps.ShutdownEndsExactly: takes wake-ups of the condition variable for granted only where there was a signal, that is without spurious ones, and every worker thread to be created.
- Completion.EveryRunCanEnd: says that a run can be completed, not that a scheduler completes it; that workers that wait are woken is `WakeUps`' matter.
- Handle.CloseExactly: the close of the file itself is taken to succeed.
- JobQueue.Receive: a message holds no zero byte, behind which the C library would not look.
- Allocation failure, the gather of the ranges, and the text file the compressed rows are printed to.
- EndOfFile.GetEofOffset: asks for ascending blocks, a positive extent and an input not below the displacement, below which the code reads before its first block; whether the answer is right is stated for copies that fit their extent and start at an offset of at least 0, as MPI asks of filetypes.
- Attributes.ReadBack: a displacement attribute shorter than eight bytes, which would leave part of the daemon's variable unset, is decoded as the bytes it has.
- Worker.Work: unpacking, opening and writing the destination are taken to succeed once the attributes are read; their failures appear as skipped jobs in the daemon's events.
- Daemon.Event: a worker reads all the attributes of a file in one event; a flush writes its attributes and sends the name in one.
- Node.Deliver: names reach the listener in the order they were sent.
- Node.Orderly: a handle that is never closed keeps its active section's name in use for good.
- A sequential handle's displacement MPI_DISPLACEMENT_CURRENT, which the handle saves as a number and the daemon hands on: such sections are not proper.
- DirectIo.EnableIsComplete: says nothing of runs that fit only where they touch; negative counts, which MPI refuses, are not modelled.
- EndToEnd.WriteBehindIsWriteThrough: with several workers it asks that the sections' bytes do not meet, and of every section that its writes leave no hole; the code promises no more for either. Sections that overlap land in hand-over order, which need not be the order of the writes of different handles.
