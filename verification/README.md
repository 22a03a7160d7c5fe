# The data structures and protocols of the ARC POSIX layer

The POSIX layer of ARC emulates memory maps, file descriptors, sockets, sync fences and mounted file systems inside one
process. This project models the data structures and the protocols under that emulation, and proves what callers rely
on. Code that changes state in place is a class, or a state machine where threads interleave; each method is tied to a
function or a predicate on values, and the lemmas and run theorems are about these.

- `OrderedMap`: the iterator positions of a sorted map (lower bound, upper bound, the entry before).
- `RegionMap`, `RegionWalk`, `RegionRuns`, `MemoryRegions`: the map of mmapped address ranges, whose even keys are
  starts and whose odd keys are ends. Its meaning is a function from addresses to streams (`CellAt`). Removal is pointwise
  deletion, the calls that it makes tile the removed addresses, and reference counts balance over whole runs.
- `BacktraceMap`: the map from intervals to backtraces, cut while it is iterated over. After any run an address looks up
  what the last operation on it left.
- `Fences`, `FenceInvariant`, `FenceSteps`, `FenceTheorems`, `FenceCalls`, `FenceProgress`: timelines, sync points and
  fences as steps of threads between lock operations. `Inv` holds in every run of every interleaving; the theorems follow
  from it, among them that no signal is lost and that threads do not deadlock. `FenceCalls` follows each call from its
  arguments on: what was asked for is what later states show.
- `PathUtil`, `MountPoints`: routing a path to a file system by stripping its last component until something is mounted.
- `DirectoryTree`: the class DirectoryManager, a directory tree flattened into a map from directory names to entries.
- `CircularBuffers`, `StreamData`, `LocalSockets`: the ring buffer of a stream socket, the bytes that flow through it
  over a run, and how sockets become and stop being peers. `Basics` has what several modules share.
- `ReadonlyFiles`: a file that is a slice of an image, read through a read-ahead buffer.
- `FdTable`: the table of file descriptors with its heap of free ones, and the references that it holds to streams.

Where the code and its comments or promises disagree, the model follows the code:

- A read-ahead that fails other than by EINTR does not leave the cache intact, as the comment at
  `src/posix_translation/readonly_file.cc:366` has it: the buffer was resized before.
  `ReadonlyFiles.AgreesExactlyWhen` says exactly when the buffer stays right, and
  `ReadonlyFiles.FailedReadAhead` is a failing input.
- The comment at `src/posix_translation/mount_point_manager.cc:108` says that the stripping loop ends at "/" or ".".
  It also ends at a relative directory of one character, such as "a" for "a/b", without looking it up.
  `MountPoints.LongestExactlyWhenRegular` says for exactly which paths the lookup is longest-prefix match.
- `connect` does not refuse a socket that is connecting already. `LocalSockets.Connect` says exactly when the queues
  stay sound, `LocalSockets.Link` when the peer links do, and `LocalSockets.ConnectTwice` is a failing run.
- `AddFile` runs into a failing assertion exactly for an accepted path with an empty component, and `RemoveDirectory`
  exactly for the empty name while the root is empty; `DirectoryTree.AddFileAborts` and
  `DirectoryTree.RemoveDirectoryAborts` are failing inputs.
- Adding a stream at the very range of a region without a stream looks at the stream that is not there
  (`src/posix_translation/memory_region.cc:187`); `MemoryRegions.MemoryRegion.AddFileStreamByAddr` says exactly when.
  That input exists at the interface of the class only: the one caller that adds a range without a stream removes it
  again under the same mutex (`src/posix_translation/virtual_file_system.cc:314-325`).
- The backtrace map's lock is free between unmapping a range and storing its trace.
  `BacktraceMap.StoringExactlyWhen` says for which changes in between the store is still an overwrite, and
  `BacktraceMap.StoreLosesTrace` is one for which it is not.
- A mapping of length zero recorded in the backtrace map can hide the trace at its address:
  `BacktraceMap.MappedIsPointwise` has the exact condition.
- A directory can be made where a file of the same name is listed; both then exist
  (`DirectoryTree.DirectoryManager.MakeDirectories` keeps every file).
- The comment at `src/posix_translation/fd_to_file_stream_map.cc:44` calls the insertion of a descriptor that was not
  claimed the slow path. A claim takes that path too, with a heap that lacks the descriptor already
  (`FdTable.FdToFileStreamMap.ValidBut`).

## Model

| member | source | states |
|---|---|---|
| RegionMap.CellMeaning | src/posix_translation/memory_region.h:119-152 | An address is mapped to a stream exactly when a region covers it: the key map denotes a partial function. |
| RegionMap.CarveIsPointwise | src/posix_translation/memory_region.cc:391-438 | Taking a range out unmaps every address in it and keeps the stream of every other address. |
| RegionMap.CarveWellFormed | src/posix_translation/memory_region.cc:391-438 | It keeps starts and ends alternating, with the same stream at both ends. |
| RegionMap.CarveOne | src/posix_translation/memory_region.cc:391-438 | Within one region it moves or erases at most the two border keys, as the code does. |
| RegionMap.OverlapMeaning | src/posix_translation/memory_region.cc:539-560 | The test by lookups, the intersection of intervals, and a common mapped address are the same. |
| RegionMap.NeighbourTest | src/posix_translation/memory_region.cc:204-228 | After both keys are inserted, the test on their neighbours is intersection with the regions there before. |
| RegionMap.AddMeaning | src/posix_translation/memory_region.cc:162-238 | A region is inserted exactly when the range meets none, with one reference, the offset and the stream asked for; an identical range counts a reference if both streams are of one file and always map to one address; every failure leaves the map as it was. |
| RegionRuns.RemovableMeaning | src/posix_translation/memory_region.cc:281-310 | A removal gets through exactly when it meets no shared region, and otherwise stops right before the first one. |
| RegionRuns.RemoveMeaning | src/posix_translation/memory_region.cc:241-389 | Removing refines deletion address by address, up to the first shared region; dropping a reference changes no address. |
| RegionRuns.RemoveSucceeds | src/posix_translation/memory_region.cc:241-389 | It returns 0 exactly when it dropped a reference, or the range held something and nothing shared; EINVAL exactly for length zero. |
| RegionRuns.RunWellFormed | src/posix_translation/memory_region.cc:162-438 | Every run of additions and removals keeps the map well-formed. |
| RegionRuns.RunCounted | src/posix_translation/memory_region.cc:183-192 | A range added n times is one region with n references and is unmapped exactly by its n-th exact removal. Any other operations may come in between, but for those that would really remove part of it or map part of the empty range. |
| RegionWalk.TilesStep | src/posix_translation/memory_region.cc:615-642 | One turn of a walk adds the part of the range in one region to the tiles. |
| RegionWalk.CarveStep | src/posix_translation/memory_region.cc:281-325 | Cutting region by region amounts to cutting the whole range walked so far. |
| MemoryRegions.MemoryRegion.FindRegion | src/posix_translation/memory_region.cc:578-594 | It finds the region that is exactly the range, and only that. |
| MemoryRegions.MemoryRegion.IsOverlap | src/posix_translation/memory_region.cc:539-560 | It is true exactly when the new range meets a region of the old map. |
| MemoryRegions.MemoryRegion.AddFileStreamByAddr | src/posix_translation/memory_region.cc:162-238 | It computes `AddRange`; a failure changes nothing; the inode is recorded as write-mapped only with a new region; it looks at a stream that is not there exactly for the range of a region without a stream and a stream that may share. |
| MemoryRegions.MemoryRegion.RemoveOneRegion | src/posix_translation/memory_region.cc:391-438 | Moving the borders of one region takes exactly the range out of the map. |
| MemoryRegions.MemoryRegion.RemoveFileStreamsByAddr | src/posix_translation/memory_region.cc:241-389 | It computes `RemoveRange`, and its munmap or overwrite calls tile exactly the removed addresses that had a stream, ascending and disjoint. |
| MemoryRegions.MemoryRegion.CallByAddr | src/posix_translation/memory_region.cc:596-642 | The visited pieces ascend, lie in one region each, and hold exactly the addresses of the range mapped to a stream, up to where the visitor stops. |
| MemoryRegions.MemoryRegion.IsCurrentlyMapped | src/posix_translation/memory_region.cc:467-474 | It is true exactly when some address maps to the inode. |
| BacktraceMap.TraceAtMeaning | src/common/memory_state.cc:350-360 | An address has a trace exactly when an interval covers it. |
| BacktraceMap.CutWellFormed | src/common/memory_state.cc:254-346 | Unmapping keeps the intervals disjoint and not empty. |
| BacktraceMap.CutIsPointwise | src/common/memory_state.cc:254-346 | Unmapping is removal address by address, and keeps every trace outside the range. |
| BacktraceMap.MappedIsPointwise | src/common/memory_state.cc:242-252 | Mapping is overwriting address by address exactly when the range is not empty or its address has no trace. |
| BacktraceMap.StoringExactlyWhen | src/common/memory_state.cc:242-252 | Storing a trace is overwriting, and keeps the intervals disjoint, exactly when whatever meets the range starts at its address and ends in it. |
| BacktraceMap.StoreLosesTrace | src/common/memory_state.cc:242-252 | Storing over a longer mapping that another thread made in between loses the rest of that mapping. |
| BacktraceMap.RunIsLatest | src/common/memory_state.cc:242-346 | After any run, an address looks up the trace of the last operation whose range holds it. |
| BacktraceMap.LoopStep | src/common/memory_state.cc:269-345 | One turn, in all six cases of overlap, moves the cut past one interval although entries are erased and inserted. |
| BacktraceMap.MemoryMappingBacktraceMap.Unmap | src/common/memory_state.cc:254-346 | The loop ends and leaves the cut map. |
| BacktraceMap.MemoryMappingBacktraceMap.MapCurrentStackFrame | src/common/memory_state.cc:242-252 | It leaves the overwritten map. |
| BacktraceMap.MemoryMappingBacktraceMap.Lookup | src/common/memory_state.cc:348-360 | It finds the frames of the interval that covers the address, and nothing exactly when none does. |
| FenceTheorems.NoLostSignal | src/posix_translation/fence_stream.cc:94-114 | In every interleaving, a fence that no thread is about to look at or still builds is SIGNALED exactly when all its points are. |
| FenceTheorems.SignaledIsSound | src/posix_translation/fence_stream.cc:277-290 | At any moment a SIGNALED fence has all its points signaled, and no thread sleeps on it. |
| FenceTheorems.SignalsStay | src/posix_translation/fence_stream.cc:277-290 | Signaled points and fences stay so in every run, and counters never go back. |
| FenceTheorems.FreeTimelineIsExact | src/posix_translation/fence_stream.cc:94-131 | While a timeline's lock is free, an attached point is signaled exactly when its time is at most the counter. |
| FenceTheorems.AssertionsHold | src/posix_translation/fence_stream.cc:159-167 | No point is marked twice, none is detached that is not attached, and a fence has one point per timeline at most. |
| FenceTheorems.MergeIsConjunction | src/posix_translation/fence_stream.cc:345-407 | A merged fence is signaled exactly when both its sources are, whatever was incremented between copying and attaching a point. |
| FenceTheorems.MergeOutlivesSources | src/posix_translation/fence_stream.cc:345-407 | Also with its sources closed, a merged fence has all its points signaled exactly when the counters have reached all points of both. |
| FenceTheorems.WaitReturns | src/posix_translation/fence_stream.cc:317-340 | A waiting thread goes on only at a fence all of whose points are signaled, however often it wakes up; and one that does not sleep finds the fence signaled. |
| FenceTheorems.CallerKeepsFence | src/posix_translation/fence_stream.h:152-157 | In every run, while an increment of a timeline is about to look, or looks, at a fence, a point of that fence is attached to the timeline, and the fence's destructor has not ended, now or before. |
| FenceProgress.NoDeadlock | src/posix_translation/fence_stream.cc:32-46 | In every state of every run in which a thread is neither idle nor waiting for a fence that is not signaled, such a thread has a step that takes it on. |
| FenceProgress.TimelineIsFree | src/posix_translation/fence_stream.cc:32-46 | A timeline's lock is free, or its holder can go on, or the holder of the fence that it waits for can. |
| FenceSteps.LaterChosen | src/posix_translation/fence_stream.cc:374-389 | The two loops choose a latest point for each timeline of the two fences, and nothing else. |
| FenceSteps.IncrementMarks | src/posix_translation/fence_stream.cc:94-106 | Moving the counter leaves unmarked only the points that the thread is about to mark. |
| FenceSteps.MarkPins | src/posix_translation/fence_stream.cc:108-113 | A point that is marked pins its fence to the timeline that is being incremented. |
| FenceSteps.AttachMarks | src/posix_translation/fence_stream.cc:121-131 | Attaching a point leaves it signaled exactly if its time has come, wherever the counter went since it was copied. |
| FenceSteps.DetachMarks | src/posix_translation/fence_stream.cc:133-150 | Detaching a point under the timeline's lock takes none that an increment still has to mark. |
| FenceSteps.LeaveKeeps | src/posix_translation/fence_stream.cc:277-290 | Deciding from a count made point by point, without the timelines' locks, keeps the invariant. |
| FenceSteps.MakeKeeps | src/posix_translation/fence_stream.cc:391-402 | Making a fence from copied points keeps the invariant. |
| FenceSteps.CreateKeeps | src/posix_translation/fence_stream.cc:80-92 | Creating a fence on one timeline under its lock keeps the invariant. |
| FenceSteps.WakeKeeps | src/posix_translation/fence_stream.cc:326-340 | A waiter that wakes up, for whatever reason, returns or sleeps again, and misses no signal. |
| FenceSteps.NextKeeps | src/posix_translation/fence_stream.cc:94-290 | Every step of every thread keeps the invariant, and takes back no signal, counter or point. |
| FenceSteps.RunKeeps | src/posix_translation/fence_stream.cc:80-407 | The invariant holds in every state of every run. |
| FenceCalls.CreatedFenceWaits | src/posix_translation/fence_stream.cc:80-92 | In every run, a fence created for a time is SIGNALED only once the counter of its timeline has reached that time, and then as soon as no thread is at work on it. |
| FenceCalls.IncrementSignals | src/posix_translation/fence_stream.cc:94-114 | An increment moves the counter by exactly its amount; whenever the timeline is free again, every attached point up to there is signaled. |
| FenceCalls.CountersBounded | src/posix_translation/fence_stream.cc:97-98 | In every run counters start at zero and stay below the 32-bit maximum. |
| FenceCalls.WaitSleeps | src/posix_translation/fence_stream.cc:317-328 | A wait returns at once exactly from a fence that is SIGNALED, whose points then are all signaled; otherwise the thread sleeps. |
| FenceCalls.WaitLasts | src/posix_translation/fence_stream.cc:317-340 | From the start of a wait on, the thread is waiting unless all points of the fence are signaled. |
| FenceCalls.MergedFenceWaits | src/posix_translation/fence_stream.cc:345-407 | The fence a merge makes has the two fences that were asked for as its sources, and once nobody is at work on it, it is SIGNALED exactly when the counters have reached all points of both. |
| FenceCalls.MergedPointsCarry | src/posix_translation/fence_stream.cc:391-402 | Its points have the timelines and times of the chosen ones; a point that was signaled when the merge began is signaled from the moment the merged fence is there. |
| FenceCalls.CloseDetaches | src/posix_translation/fence_stream.cc:210-215 | After the last reference to a fence goes, its destructor is at work or all of its points are detached for good. |
| FenceCalls.IdleCanIncrement | src/posix_translation/fence_stream.cc:94-98 | An increment can begin on a free timeline exactly for an amount that does not overflow the counter. |
| FenceCalls.IdleCanCreate | src/posix_translation/fence_stream.cc:80-87 | A fence can be created for every 32-bit time on a free timeline. |
| FenceCalls.IdleCanUse | src/posix_translation/fence_stream.cc:317-407 | In every run any two live fences can be merged and closed, and waited for when their lock is free. |
| PathUtil.DirNameOfJoined | src/posix_translation/path_util.cc:21-44 | Joining a directory, a slash and a last component, with or without a slash at the end, and taking the directory name gives the directory back, or the root. |
| PathUtil.DirNameOfComponent | src/posix_translation/path_util.cc:21-36 | A single component, with or without a slash at the end, lies in the current directory. |
| PathUtil.EveryPathIsJoined | src/posix_translation/path_util.cc:21-36 | Every path is of one of these two forms, so they define the directory name. |
| MountPoints.RouteIsDeepest | src/posix_translation/mount_point_manager.cc:76-120 | For an absolute path without empty components the exact mount point decides, and else the longest mounted directory that leads the path. |
| MountPoints.ClimbIsLongest | src/posix_translation/mount_point_manager.cc:95-117 | For a regular directory, relative ones included, the stripping loop finds the longest prefix or nothing when there is none. |
| MountPoints.LongestExactlyWhenRegular | src/posix_translation/mount_point_manager.cc:95-117 | The loop is longest-prefix match for all mounts exactly when no inner slash is the second character or follows another slash. |
| MountPoints.ChownIsTransparent | src/posix_translation/mount_point_manager.cc:55-74 | Changing an owner changes no path's handler, and the owner only of the paths that this mount point decides for. |
| MountPoints.MountPointManager.GetFileSystemHandler | src/posix_translation/mount_point_manager.cc:76-120 | The in-place loop ends and returns the handler and the owner of the deciding mount point, or none and the root. |
| MountPoints.MountPointManager.ChangeOwner | src/posix_translation/mount_point_manager.cc:55-74 | It adds the mount point if need be, with the handler that serves the path, and sets its owner. |
| DirectoryTree.JoinSplit | src/posix_translation/directory_manager.cc:263-280 | Joining the pieces of a path gives it back. |
| DirectoryTree.SplitPath | src/posix_translation/directory_manager.cc:263-280 | A path is its directory part, empty or with a slash at the end, followed by a file name without slash. |
| DirectoryTree.CleanIsCanon | src/posix_translation/directory_manager.cc:215-230 | Splitting an absolute directory name without empty components and rebuilding it piece by piece gives it back. |
| DirectoryTree.CanonIgnoresSlashes | src/posix_translation/directory_manager.cc:215-230 | A leading slash, and a second slash anywhere, do not change the name that is rebuilt; with `CleanIsCanon` this fixes it for every name. |
| DirectoryTree.AncestorsExist | src/posix_translation/directory_manager.h:88-92 | In a tree, every directory on the way to a directory is a key. |
| DirectoryTree.TreeIsDetermined | src/posix_translation/directory_manager.h:88-92 | The directories and the files determine the whole map, so the contracts below fix the new state. |
| DirectoryTree.StatDirectoryMeaning | src/posix_translation/directory_manager.cc:190-198 | StatDirectory is true exactly when the name, or the name with a slash at its end, is a directory. |
| DirectoryTree.StatFileMeaning | src/posix_translation/directory_manager.cc:180-188 | StatFile is true for a directory and a file name joined exactly when that file is listed in that directory. |
| DirectoryTree.ListingMeaning | src/posix_translation/directory_manager.cc:263-280 | A file is listed under a name, however the name is cut, exactly when its entry is where splitting the name leads. |
| DirectoryTree.SubdirectoryKeeps | src/posix_translation/directory_manager.cc:226-228 | Listing a subdirectory and making its own entry keeps the tree. |
| DirectoryTree.DirectoryRemovalKeeps | src/posix_translation/directory_manager.cc:164-175 | Dropping an empty directory finds it in its parent's list and keeps the tree. |
| DirectoryTree.DirectoryManager.AddFileWithType | src/posix_translation/directory_manager.cc:127-141 | It refuses exactly an empty or relative name, one with a slash at its end, and the name of a directory, and then changes nothing; it aborts exactly for an accepted name with an empty component; else it returns whether the file was new, and adds exactly the file and the directories on the way to it. |
| DirectoryTree.DirectoryManager.MakeDirectories | src/posix_translation/directory_manager.cc:215-230 | For any name it makes exactly the directories that lead to its canonical form, and changes no file. |
| DirectoryTree.DirectoryManager.RemoveFile | src/posix_translation/directory_manager.cc:143-151 | It takes exactly this file off the list, no directory, and returns true exactly when it was listed. |
| DirectoryTree.DirectoryManager.RemoveDirectory | src/posix_translation/directory_manager.cc:153-178 | It removes exactly an empty directory other than the root; its assertions fail only for the empty name on an empty root. |
| DirectoryTree.AddFileAborts | src/posix_translation/directory_manager.cc:238-245 | Adding "/a//b" to a new tree fails the assertion that its directory is there. |
| DirectoryTree.RemoveDirectoryAborts | src/posix_translation/directory_manager.cc:153-178 | Removing the empty name from a new tree fails the assertion that the parent is there. |
| CircularBuffers.RingAppends | src/common/circular_buffer.cc:52-68 | Writing behind the last byte, around the end of the ring, appends to the contents. |
| CircularBuffers.AppendsAround | src/common/circular_buffer.cc:57-63 | Writing to the end of the ring and then from its beginning appends, wherever the end rests. |
| CircularBuffers.RingTakes | src/common/circular_buffer.cc:70-91 | Moving the start around the ring takes the oldest bytes out, and leaves the others in order. |
| CircularBuffers.CircularBuffer.Write | src/common/circular_buffer.cc:52-68 | It appends exactly the first min(length, free) bytes, at every wrap position. |
| CircularBuffers.CircularBuffer.Read | src/common/circular_buffer.cc:70-91 | It removes and returns exactly the oldest min(length, size) bytes. |
| CircularBuffers.CircularBuffer.SetCapacity | src/common/circular_buffer.cc:27-50 | It keeps the oldest min(size, capacity) bytes in order. |
| StreamData.AcceptedStep | src/posix_translation/local_socket.cc:704-708 | Buffering iovec by iovec accepts the longest prefix of the whole that fits. |
| StreamData.RunConserves | src/posix_translation/local_socket.cc:424-431 | In every run, bytes delivered and then bytes buffered are the bytes accepted, in order; a receive with room gets nothing only when all was delivered. |
| StreamData.DrainsInOrder | src/posix_translation/local_socket.cc:506-516 | After the peer has closed, receives deliver what is buffered in order, all of it once there was room, however the reader cuts them. |
| StreamData.DrainsStep | src/posix_translation/local_socket.cc:424-431 | One event on a closed channel takes the next bytes out, or none. |
| StreamData.SendsConcatenate | src/posix_translation/local_socket.cc:701-708 | Two sends accept what one send of both lists would. |
| LocalSockets.HandleSendmsg | src/posix_translation/local_socket.cc:691-765 | On the channel to this socket it is a send step; it returns the number of bytes that were accepted, and its one error is EAGAIN, exactly when something was sent and nothing accepted. |
| LocalSockets.SendMsg | src/posix_translation/local_socket.cc:548-576 | The error for a direction, a state or a lost peer; otherwise a send step of the channel to the peer that returns the number of bytes accepted, or EAGAIN exactly when something was sent and none were. No other socket's bytes change. |
| LocalSockets.RecvMsg | src/posix_translation/local_socket.cc:402-520 | A receive step of the channel to this socket and of no other; the chunks fill the iovecs in order; it returns 0 or EAGAIN only when nothing was delivered, by whether the peer is gone. |
| LocalSockets.SendThenReceive | src/posix_translation/local_socket.cc:402-576 | A send followed by a receive at the other end is two steps of the channel between them; the send returns what was accepted, the receive what was delivered, and all that is delivered was accepted. |
| LocalSockets.PairDelivers | src/posix_translation/virtual_file_system.cc:1503-1508 | A write to a new pair or pipe returns min(length, 229376); the other end reads the longest prefix of it that fits the buffer and the iovecs, and is told its length. |
| LocalSockets.MakePair | src/posix_translation/virtual_file_system.cc:1503-1508 | Two new sockets become each other's peers, each with a new, sound, empty buffer of its own; links stay symmetric, queues sound and bytes conserved. |
| LocalSockets.Listen | src/posix_translation/local_socket.cc:188-202 | It succeeds exactly for a bound socket that is no datagram socket, with EOPNOTSUPP or EINVAL otherwise; links stay symmetric and queues sound. |
| LocalSockets.Connect | src/posix_translation/local_socket.cc:244-325 | Success, EISCONN and ENOSYS each have their exact condition, and all else is ECONNREFUSED; on success the socket goes to the back of the queue; the queues stay sound exactly when it was not connecting already. |
| LocalSockets.Accept | src/posix_translation/local_socket.cc:327-400 | Success and each error have their exact condition; it links the first queued client that is still open with a new socket that has a new, empty buffer, and drops the closed ones before it; links stay symmetric and bytes conserved. |
| LocalSockets.Link | src/posix_translation/local_socket.cc:388-392 | Peer links stay symmetric exactly when the client had no peer yet. |
| LocalSockets.OnLastFileRef | src/posix_translation/local_socket.cc:47-65 | Closing cuts both ends of a link and is a close step of the channel to the peer; links stay symmetric between open sockets of one type. |
| LocalSockets.ConnectTwice | src/posix_translation/local_socket.cc:279-325 | A socket that connects twice ends up with two server sockets that take it for their peer. |
| ReadonlyFiles.ServedAlways | src/posix_translation/readonly_file.cc:320-380 | Whatever the image does, the bytes returned are the file's from the position on: all of min(count, rest) if the buffer has them, else as many of those as the image gives, or its failure. |
| ReadonlyFiles.BufferAfter | src/posix_translation/readonly_file.cc:344-376 | Only a read-ahead changes the buffer: it then holds what the image gave of min(read-ahead size, rest) bytes; an interrupt empties it, and another failure leaves it padded with zeros. |
| ReadonlyFiles.AgreesExactlyWhen | src/posix_translation/readonly_file.cc:350-367 | A read leaves the buffer agreeing with the file exactly unless a read-ahead failed over bytes that are not zero. |
| ReadonlyFiles.ExactStays | src/posix_translation/readonly_file.cc:350-376 | If the image's reads give something or are interrupted, the buffer stays a piece of the file's slice. |
| ReadonlyFiles.AskedInside | src/posix_translation/readonly_file.cc:320-363 | The image is never read behind the slice, and in front of it exactly for negative positions. |
| ReadonlyFiles.FailedReadAhead | src/posix_translation/readonly_file.cc:364-367 | After a failed read-ahead, a read returns a byte that the file does not have. |
| ReadonlyFiles.RunStaysExact | src/posix_translation/readonly_file.cc:304-398 | In every run of read, pread and lseek the buffer is the image's slice at its recorded offset. |
| ReadonlyFiles.RunReads | src/posix_translation/readonly_file.cc:304-398 | Every read of such a run returns the file's bytes at its position. |
| ReadonlyFiles.ReadsAreSequential | src/posix_translation/readonly_file.cc:304-309 | Without seeks, the reads return the file from its start without a gap or a repetition. |
| ReadonlyFiles.SeekThenRead | src/posix_translation/readonly_file.cc:382-398 | In every usual run, a read after a seek returns the file's bytes from where the seek led: the offset, so far from the last position, or from the end. |
| ReadonlyFiles.ReadonlyFile.PreadImpl | src/posix_translation/readonly_file.cc:320-380 | It gives the reply and leaves the buffer that the runs are about, also after a failed read-ahead; with an agreeing buffer every reply is the file's bytes, and as many as there are to be had. |
| ReadonlyFiles.ReadonlyFile.Read | src/posix_translation/readonly_file.cc:304-309 | It answers as the runs say at the position, and moves it by the bytes returned. |
| ReadonlyFiles.ReadonlyFile.Pread | src/posix_translation/readonly_file.cc:316-318 | It answers as the runs say at any offset, without changing the buffer or the position. |
| ReadonlyFiles.ReadonlyFile.Lseek | src/posix_translation/readonly_file.cc:382-398 | The new position is the offset, the old position plus the offset, or the file's size plus the offset, and is returned; anything else fails with EINVAL and moves nothing. |
| FdTable.FrontIsLeast | src/posix_translation/fd_to_file_stream_map.cc:83-86 | The front of a heap is its least element. |
| FdTable.HeapFront | src/posix_translation/fd_to_file_stream_map.cc:83-86 | The front of a heap that holds a set of descriptors is the least of them. |
| FdTable.BoundReplaced | src/posix_translation/fd_to_file_stream_map.cc:55-64 | Binding a descriptor to another stream moves one from the old stream's count to the new one's. |
| FdTable.FileStream.ReleaseFileRef | src/posix_translation/file_stream.cc:83-100 | With the last reference every listener is told once, and then OnLastFileRef runs, once, with no listener left. |
| FdTable.FdToFileStreamMap.constructor | src/posix_translation/fd_to_file_stream_map.cc:17-25 | The heap holds each descriptor of the range once. |
| FdTable.FdToFileStreamMap.AddFileStream | src/posix_translation/fd_to_file_stream_map.cc:36-53 | The free descriptors in the heap and the used ones partition the range; each stream has as many references as descriptors. |
| FdTable.FdToFileStreamMap.ReplaceFileStream | src/posix_translation/fd_to_file_stream_map.cc:55-64 | The same, with one reference moved and nothing done for the same stream; the old stream is closed exactly when no other descriptor is bound to it. |
| FdTable.FdToFileStreamMap.RemoveFileStream | src/posix_translation/fd_to_file_stream_map.cc:66-81 | The same, and the stream is closed exactly when no other descriptor is bound to it. |
| FdTable.FdToFileStreamMap.GetFirstUnusedDescriptor | src/posix_translation/fd_to_file_stream_map.cc:83-94 | It claims the least free descriptor, and returns -1 exactly when there is none. |
| FdTable.FdToFileStreamMap.GetStream | src/posix_translation/fd_to_file_stream_map.cc:100-115 | The stream of a descriptor is never closed. |

## Left out

- Memory addresses are unbounded integers: the wrap-around of an address range is not modelled.
- MemoryRegion with `abort_on_unexpected_memory_maps_` set, where an unexpected overlap ends the process.
- MemoryRegion's calls to munmap that fail, the special case for the text section under NaCl, and the visitors of
  mprotect and madvise. A visitor of `CallByAddr` is a function of the piece, without state.
- MemoryRegions.MemoryRegion.AddFileStreamByAddr: the record of write-mapped inodes is only what the code keeps; an
  addition that only counts a reference does not record its inode.
- RegionRuns.RunCounted: an operation of the run may not remove part of the region at one reference, nor map part of the
  empty range other than by an exact addition, because the range is then no longer one region or nothing.
- BacktraceMap.MemoryMappingBacktraceMap.MapCurrentStackFrame: the method is one step; what other threads may do
  between its two halves is the subject of `BacktraceMap.StoringExactlyWhen`. Addresses do not overflow.
- BacktraceMap.MemoryMappingBacktraceMap.Unmap: the guard on the first interval is read as "no interval starts at
  or after the address, or the first one that does starts later"; the code reads the key of the end iterator there.
- The text that ConvertBacktraceToJSON makes of the frames.
- Fences: timeouts of SYNC_IOC_WAIT, SYNC_IOC_FENCE_INFO, fence names, merging a fence with itself (a dup), and the file
  system's own mutex. A timestamp is reduced to whether it is zero, and what is done under a sync point's lock is a
  part of one step.
- PathUtil: strings are edited on values, not in place.
- MountPoints: the callbacks of a handler on mounting and unmounting, and the count of updates.
- MountPoints.MountPointManager.Add: adding a mount point twice ends the process in the code; here it may not be asked.
- MountPoints.MountPointManager.ChangeOwner: the path must have a handler, as the code asserts.
- DirectoryTree.SplitPath: it splits plainly; base::SplitString, which is not part of this model, also trims
  white space from the pieces.
- DirectoryTree: OpenDirectory and the directory stream.
- LocalSockets: names, credentials, control messages, datagrams, notifications, flags, timeouts and blocking waits; a
  receive is modelled from where it need not wait any more, and a socket knows only whether it is bound.
- LocalSockets.Accept: what other threads do while it waits is not part of the call; it starts when the wait is over.
- LocalSockets.Connect: it ends where the wait for accept begins.
- ReadonlyFiles: mmap, madvise, the special files of /proc, and the width of offsets.
- FdTable: closing all descriptors when the table goes, other threads that run while OnLastFileRef waits, and
  descriptors outside the range of the table.
- FdTable.FdToFileStreamMap.AddFileStream: a descriptor bound to a stream may not be bound again, as the code asserts.
- FdTable.Arrange: the standard library's heap functions are known by what they promise, not by how they swap.
- EPollStream, Pepper files, device files, procfs contents, system call wrappers and tracing.
