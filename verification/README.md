# A verified model of the POSIX compatibility layer

`src/libc-compat` supplies the POSIX functions that Emscripten and Windows lack or get wrong. This project models
the parts of it that keep state or loop over memory, and proves what callers rely on.

| files | what they model |
|---|---|
| `MapTable.dfy`, `MapShim.dfy` | `emsup/mmap_hack.c`: the list of shared writable mappings that delays `close` and `fclose` until the last `munmap`. `MapShim` is the heap-allocated linked list with its marking, searching and unlinking loops; each method is proved equal to a function of `MapTable`, and `Run` executes whole runs. `PosixReference`, in the same file, is the `mmap` page of POSIX.1-2017 read as a machine |
| `MapInvariant.dfy`, `MapRuns.dfy`, `MapOrder.dfy` | what holds on every run of the shim beside the reference |
| `FdCache.dfy`, `WinOpen.dfy` | `winsup/internal/fd.c`, `winsup/open.c`, the `fopen` of `winsup/file.c`, `winsup-rs/fd.rs`: the cache from descriptors to their append flag, swept while it is searched |
| `FdCacheRuns.dfy` | every run of opens, handle conversions, readlinks and closes over that cache |
| `Uio.dfy` | `winsup/uio.c`: `readv` and `writev` over system calls that may be short, interrupted, refused or failing |
| `FileMode.dfy` | `winsup/file.c`: the `fopen` mode parser and printer, and `fdopen` |
| `ByteStrings.dfy` | `winsup/str.c` and `libbsd/str.c`: `memmem` and `strlcpy` |
| `HandlePath.dfy` | `winsup/internal/fd.c`: the in-place path prefix removal and the bounded join |
| `Common.dfy` | an option type, the flags of open, and C strings |

`dafny verify dfyconfig.toml` checks everything, with no further options.

## Hypotheses

The environment appears as parameters of the steps, and what is asked of it is stated in the predicates named here.

* `MapInvariant.Legal`: the host hands out descriptor numbers that are not really open, addresses that are not
  mapped and FILE objects that are not live; the client does not map a descriptor it has closed, does not fclose a
  dead FILE, and unmaps whole mappings. A close of a really open descriptor succeeds. Closing anything, any number
  of times, is allowed, and so is a failing `mmap` or `munmap`. Asserts are evaluated: the delayed close is written
  inside one (`src/libc-compat/emsup/mmap_hack.c:151`, `:153`), so a build with `NDEBUG` is a different program.
* The host writes a shared mapping back when it is unmapped, to the file its descriptor number denotes then, and
  not at all if the number is closed. This is the defect described at `src/libc-compat/emsup/mmap_hack.c:1-9`.
* `FdCacheRuns.Possible`: a descriptor number that is allocated is free and below `OPEN_MAX`, a handle value that is
  issued is not live. `FdWorld.Made` and `Granted`: what the kernel grants for the options of a Rust open, and that a
  handle with an access of the caller's own appends iff it may append but not write data; a handle that cannot be
  queried does not append. That the fallback query is then right is proved (`FallbackIsRight`). Handle values are
  issued again while CRT descriptors may still hold them. The lookup theorem asks that no cached descriptor does
  (`Legal`), the theorem about descriptor modes that no descriptor does (`Careful`); both conditions are shown exact.
  Two theorems assume nothing about reissued values, and restrict what is closed instead. `TidyLookupsAreRight`, about
  lookups: a handle is closed, through a descriptor or directly, only while no other cached descriptor has it, and
  readlink gets a number whose slot is empty. `DisciplinedRunsAreRight`, about modes as well: a descriptor is closed
  only while no other descriptor, cached or not, has its handle, a handle is dropped only while no descriptor at all
  has it, and there is no readlink.
* `Uio`: the schedule of system calls is finite and otherwise arbitrary; past its end each call moves all it can.
  The segments of a `readv` do not overlap.
* `PATH_MAX` is the 260 of the MinGW headers, and the open flags have their MinGW values.

## What the proofs found

* Mapping a descriptor after closing it makes a later `munmap` of an older mapping fail the shim's assertion: the
  host cannot refuse the mapping, because the number is still open. `RemapIsSafeIffStillOpen` says exactly when, over
  all later runs, and `LateMmapAborts` is such a run.
* A second `close` of a descriptor whose close is pending returns 0 where POSIX wants an error (`ReturnCodes`), and
  of several streams fclosed on one mapped descriptor only the latest is ever freed (`OnlyLatestStreamIsFreed`).
  `SecondCloseSucceeds` and `EarlierStreamLeaks` are such runs from the start.
* `readv` and `writev` stop at an empty segment, where POSIX skips it; `FullTransferIff` says exactly when nothing
  is lost by that.
* The mode parser accepts the empty string, since `strchr` also finds a terminator. `fopen` with an empty mode
  therefore creates the file, then fails in `fdopen` and leaves the descriptor open. `WinOpen.WrapFopen` states the exact
  condition. The comment at `src/libc-compat/winsup/file.c:21` promises a validity check.
* The append cache misleads a lookup only through descriptors opened by a route that neither records nor looks up
  (`src/libc-compat/winsup/internal/fd.c:106-128`) or through a handle value reissued while a cached descriptor keeps
  it; `ForeignOpenIsSafeIffSlotEmpty`, `ReissueIsSafeIffNotCached` and `OpenIsSafeIffNotCachedBelow` say exactly when
  each is safe. The descriptor that `as_raw_fd` makes of a borrowed File outlives the File's handle
  (`src/winsup-rs/fd.rs:85-92`); `ConvertedIsUncached` and `UncachedStaysUncached` show that it cannot mislead a lookup.
* `readlink` closes the handle of the descriptor it opened and keeps the descriptor
  (`src/libc-compat/winsup/link.c:109-111`). If the number had a stale slot in the cache, a later object with that handle
  value gets the stale answer, although the client broke no rule (`ReadlinkMisleads`). `ReissueAfterReadlinkIff` says
  exactly when the value may be reissued.
* `from_raw_fd` hands the handle of a cached descriptor to a File, which closes it on drop while the descriptor stays
  (`src/winsup-rs/fd.rs:24-36`). The next object with that value gets the old answer (`DroppedRawFdMisleads`).
* `GetFinalPathNameByHandle` answers a nonzero required size when its buffer is too small, and leaves the buffer
  alone. The test at `src/libc-compat/winsup/internal/fd.c:58` takes that for success, so the code goes on with
  whatever `malloc` left there. `PathIsRightIffItFits` says exactly when the path taken is the path of the handle.
* When the buffer for a parent path cannot be allocated, `src/libc-compat/winsup/internal/fd.c:148-152` takes the error
  from the last system error, as for a path that cannot be found (`GetPathAt`).
* `memmem` finds nothing for an empty needle, where the GNU function finds the start of the haystack.

## Model

| member | source | states |
|---|---|---|
| MapRuns.EveryRunRefinesPosix | src/libc-compat/emsup/mmap_hack.c:51-181 | on every legal run no assertion fails; the really open descriptors are the client's open ones, on the client's files, plus the closed ones through which a live mapping writes back; the mappings of the host that write back are those of the reference, each through a descriptor open on its file; all write-backs went to the file POSIX prescribes; no stream the client holds has been freed; every descriptor ever opened was really closed exactly once or is open |
| MapRuns.MappingsMatch | src/libc-compat/emsup/mmap_hack.c:58-75 | in every invariant state the live mappings that write back are those of the reference, and the descriptor of each is open on the file it mapped |
| MapRuns.NothingLeaks | src/libc-compat/emsup/mmap_hack.c:138-181 | once no mapping is left, the list is empty and exactly the client's descriptors are open |
| MapRuns.FromMmapToMunmap | src/libc-compat/emsup/mmap_hack.c:51-98 | from a tracked mmap until the munmap of its address the descriptor number stays open on the file the client mapped, whatever else happens |
| MapRuns.MmapBacks | src/libc-compat/emsup/mmap_hack.c:51-78 | a tracked mmap backs its address by the file the client has open on the descriptor |
| MapRuns.MappingKeepsItsFile | src/libc-compat/emsup/mmap_hack.c:58-98 | a mapping that is backed by an open number and a file stays so on every run that does not unmap it |
| MapRuns.MarksFollowTheClient | src/libc-compat/emsup/mmap_hack.c:89-126 | entries of one descriptor always carry the same marks: to be closed iff the client closed it, through a stream iff an fclose was issued, and then the latest, still live, stream |
| MapRuns.NestingIsInvisible | src/libc-compat/emsup/mmap_hack.c:100-129 | every run ends in the same state whether or not libc's fclose calls the wrapped close |
| MapRuns.NestedStep | src/libc-compat/emsup/mmap_hack.c:121-154 | at both places where the real fclose is called a nested close passes straight through |
| MapRuns.ReturnCodes | src/libc-compat/emsup/mmap_hack.c:85-136 | each call returns what POSIX prescribes, except exactly on a close or fclose of a descriptor whose close is pending, which returns 0 |
| MapRuns.GoodRun | src/libc-compat/emsup/mmap_hack.c:51-181 | every legal run keeps the invariant and does not depend on nesting |
| MapRuns.StepKeeps | src/libc-compat/emsup/mmap_hack.c:51-181 | every legal step succeeds and keeps the invariant relative to the reference |
| MapRuns.FcloseFrees | src/libc-compat/emsup/mmap_hack.c:106-136 | fclose frees exactly its own stream, at once, unless its descriptor still has a live mapping that writes back; then it frees none |
| MapRuns.OnlyDeferredStreamsLinger | src/libc-compat/emsup/mmap_hack.c:106-154 | on every run, a stream that is still there although the client fclosed it was fclosed while a mapping wrote back through its descriptor |
| MapRuns.MunmapAbortsIff | src/libc-compat/emsup/mmap_hack.c:138-178 | munmap, of any length, fails an assertion iff it unmaps part of a mapping whose descriptor is waiting to be closed |
| MapInvariant.MmapKeeps | src/libc-compat/emsup/mmap_hack.c:51-78 | recording a shared writable mapping keeps the invariant |
| MapInvariant.CloseKeeps | src/libc-compat/emsup/mmap_hack.c:85-98 | close, of any number, keeps the invariant whether it is refused, deferred or done |
| MapInvariant.FcloseKeeps | src/libc-compat/emsup/mmap_hack.c:106-136 | fclose keeps the invariant in each of its branches |
| MapInvariant.MunmapKeeps | src/libc-compat/emsup/mmap_hack.c:157-181 | munmap never aborts, writes back to the mapped file, and keeps the invariant |
| MapInvariant.DelayedCloseKeeps | src/libc-compat/emsup/mmap_hack.c:148-154 | the delayed close succeeds and really closes the descriptor |
| MapInvariant.LastUnlinkKeeps | src/libc-compat/emsup/mmap_hack.c:163-171 | unlinking the last entry of a closed descriptor leaves the state of a client that never closed it |
| MapOrder.AnyOrderClosesOnce | src/libc-compat/emsup/mmap_hack.c:138-181 | the run that unmaps all mappings of a closed descriptor, in any order, is legal and completes, really closes it exactly once, frees its latest stream, writes each mapping back to its file and keeps exactly the other entries in order |
| MapOrder.NoEarlyClose | src/libc-compat/emsup/mmap_hack.c:138-148 | at every point of that run before the last munmap nothing has been closed |
| MapOrder.OrderDoesNotMatter | src/libc-compat/emsup/mmap_hack.c:138-181 | runs that unmap in any two orders end in the same list and the same host, but that the same write-backs were made in another order |
| MapOrder.OnlyLatestStreamIsFreed | src/libc-compat/emsup/mmap_hack.c:121-126 | of the streams on a descriptor that run frees exactly the latest one fclosed |
| MapOrder.SecondCloseSucceeds | src/libc-compat/emsup/mmap_hack.c:85-98 | open, mmap, close: another close returns 0 and changes nothing, where POSIX returns an error |
| MapOrder.EarlierStreamLeaks | src/libc-compat/emsup/mmap_hack.c:121-126 | two streams on a mapped descriptor are fclosed and the mapping goes: the first stream is never freed, although the client holds it no more |
| MapOrder.MunmapTakesOneEntry | src/libc-compat/emsup/mmap_hack.c:157-181 | munmap of a tracked address removes exactly its entry; of an untracked one it changes nothing but the mapping |
| MapOrder.RemapIsSafeIffStillOpen | src/libc-compat/emsup/mmap_hack.c:138-147 | after mapping an open number once more no legal run ever fails an assertion iff the client had not closed it |
| MapOrder.LateMmapAborts | src/libc-compat/emsup/mmap_hack.c:138-147 | open, mmap, close, mmap again: the munmap of the first mapping fails the assertion |
| MapShim.Shim.Mmap | src/libc-compat/emsup/mmap_hack.c:51-78 | pushes one fresh node in front of the unchanged list for a tracked mapping, and nothing otherwise |
| MapShim.Shim.MarkAll | src/libc-compat/emsup/mmap_hack.c:35-49 | the marking walk marks exactly the nodes of the descriptor, in place, and says whether there were any |
| MapShim.Shim.WrapClose | src/libc-compat/emsup/mmap_hack.c:85-98 | on the heap list, close refuses a closed number, marks every node of a mapped one in place, or really closes: the step of the run theorems |
| MapShim.Shim.WrapFclose | src/libc-compat/emsup/mmap_hack.c:106-136 | on the heap list, fclose marks every node with the stream in place or really closes, nested or not: the step of the run theorems |
| MapShim.Shim.PostMunmapHook | src/libc-compat/emsup/mmap_hack.c:138-155 | on the heap list, with the node already unlinked: aborts exactly when an assertion of the hook fails, waits for the other mappings, or closes through the recorded stream or number |
| MapShim.Shim.Unlink | src/libc-compat/emsup/mmap_hack.c:164-168 | drops one node from the acyclic list; it is no longer reachable and the others stay |
| MapShim.Shim.Munmap | src/libc-compat/emsup/mmap_hack.c:157-181 | on the heap list, munmap drops exactly the first node at the address, keeps the others in order, and acts as the step of the run theorems |
| MapShim.Shim.Apply | src/libc-compat/emsup/mmap_hack.c:51-181 | any step of a run, executed on the heap list |
| MapShim.Shim.Run | src/libc-compat/emsup/mmap_hack.c:51-181 | a whole run executed on the heap list ends in the state of the run theorems, and a legal one from the start never aborts |
| FdCacheRuns.EveryLookupIsRight | src/libc-compat/winsup/internal/fd.c:199-239 | on every run, with handle values issued again to anything as long as no cached descriptor has them, each lookup of a live handle answers the append flag it was opened with |
| FdCacheRuns.EveryModeIsRight | src/winsup-rs/fd.rs:85-123 | on every run that issues no value a descriptor holds, every descriptor of a live handle appends iff the handle does |
| FdCacheRuns.FromOpenToLookup | src/libc-compat/winsup/internal/fd.c:178-229 | from a Rust open until the handle is closed, whatever else happens, each lookup of the handle answers O_APPEND iff it was opened for appending |
| FdCacheRuns.EveryDescriptorIsBinary | src/winsup-rs/fd.rs:85-123 | on every run without readlink, every descriptor opened or converted is binary |
| FdCacheRuns.DisciplinedRunsAreRight | src/libc-compat/winsup/internal/fd.c:199-239 | on every run that closes no aliased descriptor, drops no handle that a descriptor has and calls no readlink, with a kernel that only promises values that are not live, all lookups and all descriptor modes are right |
| FdCacheRuns.DisciplineIsCareful | src/libc-compat/winsup/internal/fd.c:199-229 | such a run never issues a value that a descriptor holds |
| FdCacheRuns.TidyLookupsAreRight | src/libc-compat/winsup/internal/fd.c:199-239 | on every run that closes or drops a handle only while no other cached descriptor has it, and calls readlink only where the slot is empty, all lookups are right, with a kernel that only promises values that are not live |
| FdCacheRuns.TidyRunIsLegal | src/libc-compat/winsup/internal/fd.c:199-229 | such a run never issues a value that a cached descriptor holds |
| FdCacheRuns.ConvertedIsUncached | src/winsup-rs/fd.rs:85-92 | the descriptor made of an uncached handle is uncached, even on a number with a stale slot |
| FdCacheRuns.UncachedStaysUncached | src/winsup-rs/fd.rs:85-92 | on every run without its own close, an uncached descriptor keeps its handle value and never gets into the cache |
| FdCacheRuns.StaleIsMasked | src/libc-compat/winsup/internal/fd.c:207-224 | a stale flag on a free number is emptied by the lookup that precedes its reuse, or masked by a lower live descriptor of the handle |
| FdCacheRuns.SweepKeeps | src/libc-compat/winsup/internal/fd.c:211-220 | emptying slots during a lookup changes the answer for no live handle |
| FdCacheRuns.ConvertKeeps | src/winsup-rs/fd.rs:85-123 | converting a handle to any free descriptor keeps every lookup right |
| FdCacheRuns.ModesKept | src/winsup-rs/fd.rs:85-123 | a conversion gives the descriptor the append mode of the handle, and no other step spoils a mode |
| FdCacheRuns.WrapOpenKeeps | src/libc-compat/winsup/open.c:78-90 | a recorded open keeps every lookup right, if no cached descriptor below the new one holds the value |
| FdCacheRuns.CloseKeeps | src/libc-compat/winsup/internal/fd.c:211-220 | closing a descriptor or a handle, or calling readlink, leaving the cache stale, keeps every lookup right |
| FdCacheRuns.ReissueIsSafeIffNotCached | src/libc-compat/winsup/internal/fd.c:222-228 | the lookup is right for every object a value could be reissued to iff no cached descriptor still has it |
| FdCacheRuns.OpenIsSafeIffNotCachedBelow | src/libc-compat/winsup/open.c:78-90 | a wrapped open leaves the lookup right, whatever its flags, iff no cached descriptor below the new one has the value |
| FdCacheRuns.ModesSurviveReissueIffNotHeld | src/winsup-rs/fd.rs:85-92 | all descriptor modes stay right for every object a value could be reissued to iff no descriptor has it |
| FdCacheRuns.ForeignOpenIsSafeIffSlotEmpty | src/libc-compat/winsup/internal/fd.c:106-128 | an open that bypasses the cache is safe for every object iff the slot of its number is empty |
| FdCacheRuns.AliasedCloseMisleads | src/libc-compat/winsup/internal/fd.c:207-224 | a possible run from the start in which closing an aliased descriptor makes the last lookup wrong |
| FdCacheRuns.DroppedRawFdMisleads | src/winsup-rs/fd.rs:24-36 | so does a run in which a File made by from_raw_fd is dropped |
| FdCacheRuns.ReadlinkMisleads | src/libc-compat/winsup/link.c:40-111 | so does a run in which readlink gets a number with a stale slot |
| FdCacheRuns.ReissueAfterReadlinkIff | src/libc-compat/winsup/link.c:40-111 | after readlink the value of its handle is safe for every object iff no cached descriptor had it and the slot of the number was empty |
| FdCache.OflagCache.constructor | src/libc-compat/winsup/internal/fd.c:241-246 | every slot starts empty |
| FdCache.OflagCache.CacheOflag | src/libc-compat/winsup/internal/fd.c:231-239 | records the append bit and raises the high-water mark over the slot |
| FdCache.OflagCache.GetOsHandleOflag | src/libc-compat/winsup/internal/fd.c:199-229 | the sweeping lookup answers like a scan for the lowest live cached descriptor that changes nothing, answers 0 for an invalid handle, empties only dead slots, keeps every slot at or above the mark empty, and lowers the mark, by one, exactly when it finds nothing and the topmost recorded descriptor is closed |
| FdWorld.FallbackIsRight | src/libc-compat/winsup/internal/fd.c:178-197 | for a handle opened without the wrapper, with whatever options or access, the query answers the append flag: O_APPEND exactly for the append opens |
| FdWorld.Lowest | src/libc-compat/winsup/internal/fd.c:207-224 | the naive lookup: the lowest descriptor that is cached, live and has the handle |
| WinOpen.OpenImpl | src/libc-compat/winsup/open.c:21-76 | a missing path, a path that is no directory, and any O_CREAT go to the CRT's open, binary, with the mode argument only under O_CREAT; an existing directory is opened for reading with CreateFile when the access bits are 0, refused as a directory when they are 1 or 2, and as a bad access mode when they are 3; the descriptor is the one of the call made |
| WinOpen.WrapOpen | src/libc-compat/winsup/open.c:78-90 | the call made is that of the caller's own flags and mode; exactly the successful opens are recorded, with those flags |
| WinOpen.WrapFopen | src/libc-compat/winsup/file.c:104-123 | which call opens the file; each flag bit that reaches it, iff the mode string asks for it; 0666 iff it creates; a binary stream of the same kind; exactly when a descriptor is left without a stream; and that the cache then knows the new descriptor as appending iff the mode starts with an a |
| WinOpen.RawFd | src/winsup-rs/fd.rs:85-123 | lookup, then allocation: one conversion step of the cache machine, with a binary descriptor |
| UioSpec.OneRound | src/libc-compat/winsup/uio.c:35-60 | every round but the last moves bytes or uses up an interruption, and conserves bytes moved plus bytes left |
| UioSpec.Drive | src/libc-compat/winsup/uio.c:31-61 | the loop terminates, never moves more than there is, and returns -1 exactly on an error before the first byte |
| UioSpec.WhyItStops | src/libc-compat/winsup/uio.c:45-56 | the loop ends on an error iff the last call made is one, and no earlier call is |
| UioSpec.WhyNothingMoved | src/libc-compat/winsup/uio.c:45-46 | the loop ends on an empty transfer only if the call was refused, the stream is at its end, or an empty segment is reached |
| UioSpec.FinishedMeansNoneEmpty | src/libc-compat/winsup/uio.c:35-46 | the loop gets past the last segment only if none on the way is empty |
| UioSpec.MinusOneIff | src/libc-compat/winsup/uio.c:49-56 | -1 is returned iff nothing was moved and the last call failed other than by interruption; else the bytes moved |
| UioSpec.InterruptionsAreInvisible | src/libc-compat/winsup/uio.c:47-48 | removing all interruptions from the schedule changes neither result nor bytes moved |
| UioSpec.StopsAtEmpty | src/libc-compat/winsup/uio.c:35-46 | without errors or refusals the loop moves exactly the bytes before the first empty segment, or all the stream has if that is less |
| UioSpec.FullTransferIff | src/libc-compat/winsup/uio.c:35-46 | without errors or refusals the full total is returned iff the stream has it and no non-empty segment comes after an empty one |
| Uio.UioImpl | src/libc-compat/winsup/uio.c:31-61 | the loop over the caller's buffers moves exactly the first bytes of the transfer, in order, in either direction |
| Uio.Writev | src/libc-compat/winsup/uio.c:67-69 | what is delivered is exactly a prefix of the concatenated segments, none skipped or repeated, of the length returned |
| Uio.Readv | src/libc-compat/winsup/uio.c:63-65 | the stream goes in order across the segments; every later byte of every segment is unchanged |
| Uio.BytesOfRead | src/libc-compat/winsup/uio.c:35-60 | the byte of each segment at each offset after a transfer |
| Uio.FlatPut | src/libc-compat/winsup/uio.c:36-38 | storing into a segment at an offset is storing into the concatenation at its place |
| Uio.MovedMore | src/libc-compat/winsup/uio.c:39-41 | a transfer of n bytes continued by r bytes is the transfer of n + r bytes |
| Uio.WriteThenRead | src/libc-compat/winsup/uio.c:31-69 | writing with one segmentation and reading with another reproduces the bytes, however both are chopped up |
| FileMode.Fmodeflags | src/libc-compat/winsup/file.c:18-39 | which modes are accepted, and each flag bit iff its condition on the string |
| FileMode.FixupFmode | src/libc-compat/winsup/file.c:41-89 | succeeds iff the mode starts with r, w or a; the buffer then holds that letter, the plus if there was one, and b; nothing past the terminator is touched |
| FileMode.ReparseDropsTwoBits | src/libc-compat/winsup/file.c:18-89 | reparsing the printed mode gives the flags without the exclusive and close-on-exec bits |
| FileMode.CanonicalIsIdempotent | src/libc-compat/winsup/file.c:41-89 | a canonical mode prints as itself, in at most four bytes |
| FileMode.PrintAlikeIffFlagsAlike | src/libc-compat/winsup/file.c:41-89 | two modes print alike iff their flags agree but for those two bits |
| FileMode.ParserAndPrinterDisagreeOnlyOnEmpty | src/libc-compat/winsup/file.c:20-22 | the parser accepts what the printer refuses exactly on the empty string |
| FileMode.WrapFdopen | src/libc-compat/winsup/file.c:93-102 | a stream is opened with the first letter and the plus of the mode, binary, or not at all |
| ByteStrings.Memmem | src/libc-compat/winsup/str.c:7-32 | the leftmost match, or nothing exactly when there is none |
| ByteStrings.Memchr | src/libc-compat/winsup/str.c:22-24 | the first occurrence inside the searched range |
| ByteStrings.Strlcpy | src/libc-compat/libbsd/str.c:39-61 | the longest prefix that fits, its terminator, nothing touched past it, and the source length |
| ByteStrings.TruncationIsReported | src/libc-compat/libbsd/str.c:34-38 | the copy is the whole source iff the result is less than the size |
| HandlePath.CloseGap | src/libc-compat/winsup/internal/fd.c:72-73 | the overlapping move and the new terminator cut the gap out of the text and touch nothing past the old terminator |
| HandlePath.StripInPlace | src/libc-compat/winsup/internal/fd.c:67-80 | the in-place edit computes the prefix rule and changes nothing past the old terminator |
| HandlePath.StripUndoesUnc | src/libc-compat/winsup/internal/fd.c:70-73 | stripping undoes the prefixing of a UNC path |
| HandlePath.StripUndoesPlainIff | src/libc-compat/winsup/internal/fd.c:74-78 | stripping undoes the prefixing of a plain path iff it does not start like an extended UNC path |
| HandlePath.StripsOnlyExtended | src/libc-compat/winsup/internal/fd.c:70-80 | a path is left as it is iff it has no extended-length prefix |
| HandlePath.FdGetPath | src/libc-compat/winsup/internal/fd.c:45-81 | a fresh buffer with the stripped path if the path fits, else with what the unfilled buffer is taken for, or a read past the buffer; none exactly when there is no path or no memory |
| HandlePath.PathIsRightIffItFits | src/libc-compat/winsup/internal/fd.c:58-67 | the path taken is that of the handle, whatever malloc left in the buffer, iff it fits |
| HandlePath.GetPathAt | src/libc-compat/winsup/internal/fd.c:144-176 | the path taken for the directory, slash, name with nothing cut off, or exactly one error; too long iff it exceeds PATH_MAX, and what a failure of either allocation becomes |

## Left out

- MapShim.Shim.Munmap: a partial munmap. `MunmapAbortsIff` says when one aborts, and otherwise the entry is forgotten; the run theorems are about whole ones.
- MapShim.Shim.RealFclose: fclose of a dead FILE, undefined in C, is reported as a failure that changes nothing; fflush, which moves data but no descriptor, is not part of this model.
- Host closes that fail for other reasons than a closed number, and failing memory allocation in the mapping shim (`src/libc-compat/emsup/mmap_hack.c:64`).
- Mappings with MAP_ANONYMOUS and a descriptor that is not open: `MapInvariant.Legal` asks a tracked mapping for an open descriptor.
- WinOpen.OpenImpl: the values of errno, the third argument of open, and the opening of directory handles, which is a parameter.
- `__open_symlink_fd` in `lstat` as a step of the cache runs: the descriptor is closed again before any lookup (`src/libc-compat/winsup/stat.c:149-160`). In `readlink` it is a step; the call itself, and its failures, are not part of this model.
- Uio.UioImpl: lengths are unbounded, so a total beyond SSIZE_MAX and a negative segment count, compared as unsigned at `src/libc-compat/winsup/uio.c:35`, do not arise.
- ByteStrings.Memmem: the lengths are those of the byte strings, so negative ones do not arise.
- ByteStrings.Strlcpy: source and destination do not overlap.
- The other files of `winsup` (`at.c`, `dirent.c`, the rest of `link.c`, `stat.c`, `acl.c`, `mkdir.c`, `io.c`) and `non-linux/sendfile_fallback.c`: thin wrappers around system calls whose behaviour is not in the repository.
- `__wrap_creat`, the `__wrap__open` family and `__wrap_CreateFileW`: they forward to the functions modelled here or to the system.
- Build scripts, patches and the Rust re-exports of libc.
