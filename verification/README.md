# Verification of the duoduo core

duoduo is a C++ network library with its own buffer allocator.  This project models, in Dafny, the
parts of it whose correctness rests on invariants that no single function shows, and proves them:

1. **The pooled allocator** (`buffer/`).  Byte counts are mapped to size classes; a chunk hands out
   runs of pages, splitting on allocation and coalescing on release; a run can be carved into equal
   elements; chunks move between usage bands; freed regions wait in a thread cache; and a byte
   buffer grows over such a region, moving to another one when it must.  Page size and chunk size are parameters throughout
   (`pageShifts` from 12, `maxOrder` from 3 to 13), never the defaults.
2. **The hand-off to an event loop** (`MpscQueue.h`, `EventLoop.cpp`): a lock-free queue with many
   producers, an eventfd, and a loop that skips its own wakeups while it drains.
3. **The send and shutdown machine of a connection** (`TcpConnection.cpp`), for any results of
   `write`.
4. **The incremental HTTP request parser** (`http/`).

## How it is built

Objects that the library changes in place are classes here, with the same fields, the same branches
and the same loops: `SizeClass`, `PoolChunk`, `PoolSubpage`, `ChunkChain`, `PoolArena`,
`PoolByteBuf`, `PoolByteBufAllocator`, `MpscQueue`, `TcpConnection`, `HttpContext`.  Beside each stands a value that says
what the object means (`Layout` for a chunk, `Subpage`, `Arena`, `Queue`, `Conn`, `Parse`), every
method is tied to a function or a relation on that value, and the properties that span operations
are lemmas about the values.  Concurrency is modelled as atomic steps under sequential consistency.

The allocator is layered, and the layers are linked by lemmas rather than by assumption:

- `Powers`, `ClassMath`, `PageClasses`, `SizeClasses`, `MathUtils`, `RequestSizes`: size classes and
  page classes by their law (sizes double every four classes); the tables and the shift formulas
  are measured against a search for the least class.
- `Runs`, `Handles`, `PoolChunks`, `RunSizing`: a chunk's pages as free and live runs, and the two
  indexes over the free ones.
- `Subpages`, `PoolSubpages`: a run carved into elements; bitmap, hint and pool ring.
- `ChunkLists`, `ChunkChains`: the usage bands and the linked list of one band.
- `ArenaState`, `ArenaSafety`, `ArenaSteps`, `ArenaOps`, `ArenaRuns`, `ArenaOwners`, `ArenaIdle`: the
  whole arena with its thread cache as a state machine.  A token stands for a region from the moment a chunk
  hands it out until the chunk takes it back; in between it is a live buffer or a cached entry.
- `ArenaLinks`, `ArenaSearch`, `PoolArenas`: the arena as an object over `PoolChunk` objects, each
  operation proved to be moves of that machine.
- `Capacities`, `PoolByteBufs`: buffer growth and the byte queue over a region.
- `BufferSpans`, `BufferWiring`, `BufferAllocators`: chunks with their bytes, and the allocator with its
  arena and all the buffers it has handed out, each on the region of its own live token or on memory
  of its own.

`Basics` holds what several modules share.

## Results

**Memory safety over every run** (`ArenaRuns.RunSafety`): from the empty arena, through any sequence
of allocations, releases, cache hits, trims and new chunks, any two regions that are held -- by live
buffers or by the thread cache, whole runs or single elements -- lie inside existing chunks and share
no byte.  `ArenaOwners.StepLedger` accounts for ownership: after any move the live buffers are those
before it, less the one it took, plus the one it gave, and what it gave was nobody's.  The methods of
`PoolArenas.PoolArena` are proved to keep this and to give every request up to the chunk size a
region of its least class, from the first chunk with room in the order of the lists.

**A new chunk only when there has to be one** (`PoolArenas.PoolArena.AllocateNormal`).  A request that
no pool or cache serves makes a chunk exactly when no chunk of the arena has a free run that would do;
otherwise it goes to the first that has, in the order of the lists.  The limit on the request with
which a list turns it away loses nothing (`ArenaSearch.NothingRefused`): whatever exceeds the share
that the least usage of the list leaves free is, in the grid of the size classes, so much larger that
no chunk of the list can have it.

**Buffers do not see each other** (`BufferAllocators.PoolByteBufAllocator.WriteBytes`).  The allocator
owns an arena, whose chunks own arrays of bytes, and a buffer lies on the bytes of its region.  A write
appends to the contents of its buffer whether it fits, grows in place, or has the buffer allocate
another region, copy itself there and give the old one up; and every other buffer there is reads
exactly what it read before.  Nothing is assumed of the regions: that the new one has room and shares
no byte with anybody's follows from the contracts of `PoolArena`.  The same holds for `capacity`,
`poolBuffer` and `deallocate`, and the wiring of buffers to live regions is kept by all of them, so
no region is leaked either.

**Coalescing is maximal** (`Runs.FreeRunsAreDetermined`): the free runs of a chunk are a function of
its live runs, whatever the history.  This is what makes the shortcut of `runBestFit` sound
(`PoolChunks.PoolChunk.UntouchedChunk`).

**No lost wakeup** (`EventLoops.NoLostWakeup`), and with it progress: once the callers are done,
every course the loop can take has run everything each time it comes to look at `quit_`
(`EventLoops.EveryTurnRunsAll`), and it does come to it (`EventLoops.TurnEnds`).  `quit_` is what the
last of the starts and quits made it (`EventLoops.QuitIffCalled`), and a loop that was told to quit
ends on every course (`EventLoops.QuitEndsLoop`).

**Stream integrity** of a connection over every schedule (`TcpConnections.StreamIntegrity`); a
**shutdown is heard** (`TcpConnections.ShutdownIsHeard`): once asked for it is never forgotten, and the
write side closes as soon as nothing waits.  **Independence of chunking** of the HTTP parser
(`HttpParsing.AnyChunking`), and requests printed by the grammar parse back to their parts
(`HttpParsing.PrintedRequestParsesBack`).

Things the code does that its design would not suggest:

- A subpage of a single element is never released, so the chunk behind it is never destroyed even
  when nothing in it is held (`ArenaRuns.SingleForever`): the branch that puts a full subpage back in
  its pool returns before the test for release (`buffer/PoolSubpage.cpp:74-77`).  It happens in every
  configuration: allocate one page, free it, and the arena holds nothing and keeps the chunk
  (`ArenaIdle.IdleChunkExists`).  It happens exactly for the small classes that are whole pages
  (`ArenaIdle.SingleIff`), which are the classes of one, two and three pages
  (`RunSizing.SmallWholePages`): the first such request served from a chunk keeps the chunk for good
  (`ArenaIdle.WholePagesPin`), while the last return to a subpage of any other class releases it
  whenever the class has another one in its pool (`ArenaIdle.LastReturnReleasesIff`).  At most one
  idle subpage a class is therefore proved for classes of two or more elements only.
- A shrink can move a buffer into a region of the very size it had: in the smallest class when half of
  it is enough, and in the classes from 160 to 512 bytes when sixteen bytes or more are given up but
  less than the class below is away (`BufferAllocators.ShrinkIntoSameClass`, in both directions).
- A `quit` called before `loop` starts is forgotten (`EventLoops.QuitIffCalled`).
- The headers of a request end at the first line without a colon, empty or not
  (`HttpParsing.PrintedRequestParsesBack`).
- The correcting loop of `calculateRunSize` never runs and the element limit never cuts the search
  short (`RunSizing.CalculateRunSize`).
- A refused request line stays unread with its method set, and `setMethod` asserts that no method is
  set: a second call of `parseRequest` meets the assertion exactly when the refused line begins with
  a known method and a space (`HttpParsing.RetryAllowedIff`).
- `buffer/PoolChunkList.cpp:107` says that `remove` clears the links of the chunk; the code leaves
  them, which is harmless because `add0` overwrites both.  The model follows the code.

## Model

| member | source | states |
|---|---|---|
| MathUtils.NumberOfLeadingZeros | buffer/MathUtils.h:15-32 | 32 for zero, otherwise 31 less the position of the top bit of the unsigned 32-bit value, negative arguments included; `log2` is then exact |
| MathUtils.NextPowerOfTwo | buffer/MathUtils.h:35-44 | zero for zero and for negative arguments; otherwise the result is a power of two, not below the argument, and its half is below it, in 32-bit arithmetic up to 2^30, past which the source overflows |
| ClassMath.ComputedSizeIsClassSize | buffer/SizeClass.cpp:177-207 | the closed forms of byte and page classes are the law that sizes double every four classes |
| ClassMath.ShiftIdxIsLeastClass | buffer/SizeClass.cpp:159-170 | the shift arithmetic finds exactly the class that a search through all sizes in order finds |
| ClassMath.RoundUpIsLeastClass | buffer/SizeClass.cpp:259-266 | rounding up by the mask lands exactly on the size of the least class that holds the request |
| ClassMath.WasteBelowQuarter | buffer/SizeClass.cpp:245-266 | past the first group of classes a request wastes less than a quarter of itself |
| ClassMath.LeastClassOfClass | buffer/SizeClass.cpp:151-175 | looking up the size of a class gives the class back |
| PageClasses.RankStepHolds | buffer/SizeClass.cpp:70-132 | the byte classes that are whole pages, counted in order, are exactly the page classes |
| PageClasses.NormalIsExactPages | buffer/SizeClass.cpp:70-132 | every class above the small ones is a whole number of pages and exactly a page class, so `allocateRun` never has to round |
| PageClasses.LeastClassOfPages | buffer/SizeClass.cpp:217-236 | the page class found for a page count does not depend on the page size |
| PageClasses.FloorAgainstExact | buffer/SizeClass.cpp:209-243 | a free run is filed at or above the class of an exact request if and only if it is long enough |
| SizeClasses.SizeClass.ClassRow | buffer/SizeClass.cpp:70-100 | the flags of one row mean what they should: whole pages, small class, within the search limit, each if and only if |
| SizeClasses.SizeClass.AddClass | buffer/SizeClass.cpp:70-114 | one more row keeps the table and the four counters right, and the size returned is the law's |
| SizeClasses.SizeClass.FillClasses | buffer/SizeClass.cpp:37-68 | the loops end with all classes up to the chunk size and no more, the last one the chunk itself |
| SizeClasses.SizeClass.FillSizeTables | buffer/SizeClass.cpp:116-132 | both size tables hold the law's sizes |
| SizeClasses.SizeClass.FillLookup | buffer/SizeClass.cpp:134-149 | every entry of the lookup table is the least class of its sixteen bytes |
| SizeClasses.SizeClass.constructor | buffer/SizeClass.cpp:12-32 | for every page and chunk size the tables and counters agree with the law |
| SizeClasses.SizeClass.Size2SizeIdx | buffer/SizeClass.cpp:151-171 | table and arithmetic together give the least class, also for zero; requests past the chunk give the number of classes |
| SizeClasses.SizeClass.SizeIdx2Size | buffer/SizeClass.cpp:173-189 | the table agrees with the closed form and is inverted by the lookup |
| SizeClasses.SizeClass.NormalizeSize | buffer/SizeClass.cpp:245-266 | the normalized size is that of the class that serves the request, and wastes less than a quarter above 64 bytes |
| SizeClasses.SizeClass.Pages2PageIdxCompute | buffer/SizeClass.cpp:217-243 | least page class, or with `floor` the largest not above; the number of classes past the chunk |
| RequestSizes.NormalRequest | buffer/PoolChunk.cpp:109-112 | the run asked for by a normal class is an exact page class within the chunk, and no byte is lost in the shift |
| RequestSizes.RequestClass | buffer/PoolArena.cpp:65-77 | a request is pooled if and only if it fits a chunk |
| RequestSizes.LargestClasses | buffer/SizeClass.cpp:177-207 | the classes nearest the chunk size are eighths and sixteenths of it: none lies strictly between seven eighths and the whole, three quarters and seven eighths, a half and five eighths, a quarter and five sixteenths |
| RunSizing.CalculateRunSize | buffer/PoolChunk.cpp:202-221 | the run is the least number of pages that whole elements fill, at most seven pages and 2^(pageShifts-4) elements, and holds one element if and only if the class is whole pages |
| RunSizing.SmallWholePages | buffer/PoolChunk.cpp:202-221 | among the small classes exactly those of one, two and three pages are whole pages |
| Handles.DecodeEncode | buffer/PoolChunk.cpp:257-261 | the bit fields of a handle are all recovered, and a handle is never negative |
| Handles.EncodeOrder | buffer/PoolChunk.cpp:184-187 | comparing raw handles compares offsets first, so the top of a queue is its lowest run |
| Runs.CarveIsValid | buffer/PoolChunk.cpp:235-255 | splitting keeps the partition of the pages and leaves no two free runs touching |
| Runs.CarveConserves | buffer/PoolChunk.cpp:176-196 | free and live pages still add up to the chunk, and the live ones grow by the pages asked for |
| Runs.AbsorbIsTiled | buffer/PoolChunk.cpp:309-349 | taking in a neighbour keeps the partition |
| Runs.RetireIsValid | buffer/PoolChunk.cpp:283-291 | a run with no free neighbour can be filed as free without any two free runs touching |
| Runs.FreeRunsAreDetermined | buffer/PoolChunk.cpp:305-349 | two chunks with the same live runs have the same free runs: coalescing is maximal |
| Runs.FreeAround | buffer/PoolChunk.cpp:176-196 | a run that can become live lies within one free run |
| Runs.AllFree | buffer/PoolChunk.cpp:223-226 | if all bytes are free, nothing is live and one run spans the chunk |
| PoolChunks.InsertKeepsIndex | buffer/PoolChunk.cpp:82-99 | filing a run keeps the two indexes exact: head and tail keys of each free run and no others, each run in the queue of its floor class and no other |
| PoolChunks.RemoveKeepsIndex | buffer/PoolChunk.cpp:121-138 | removing a run keeps both indexes exact |
| PoolChunks.PoolChunk.constructor | buffer/PoolChunk.cpp:17-37 | a new chunk is one free run, indexed |
| PoolChunks.PoolChunk.RunBestFit | buffer/PoolChunk.cpp:223-233 | no free run is filed in any queue it passes over, also on the shortcut; -1 only when none is at or above the class |
| PoolChunks.PoolChunk.UntouchedChunk | buffer/PoolChunk.cpp:223-226 | free bytes equal to the chunk size mean the one free run is in the last queue: the shortcut is sound |
| PoolChunks.PoolChunk.SplitLargeRun | buffer/PoolChunk.cpp:235-255 | the front of the run goes out with exactly the pages asked for, the rest is filed in both indexes |
| PoolChunks.PoolChunk.BestFitFound | buffer/PoolChunk.cpp:181-189 | the top of the queue found is the smallest fitting class at its lowest offset |
| PoolChunks.PoolChunk.NothingFits | buffer/PoolChunk.cpp:181-182 | when every queue from the class up is empty, no free run is long enough |
| PoolChunks.PoolChunk.AllocateRun | buffer/PoolChunk.cpp:176-196 | fails only when no free run has the pages, and then changes nothing; otherwise takes exactly the pages from the front of the best-fitting run; all chunk invariants kept |
| PoolChunks.PoolChunk.CollapsePrev | buffer/PoolChunk.cpp:309-329 | the loop ends, no free run ends where the grown run starts, and no other live run is touched |
| PoolChunks.PoolChunk.CollapseNext | buffer/PoolChunk.cpp:331-349 | the same on the other side, keeping what `collapsePrev` achieved |
| PoolChunks.PoolChunk.FreeRun | buffer/PoolChunk.cpp:283-291 | exactly this run stops being live, the free bytes grow by its size, and all chunk invariants are kept |
| Subpages.TakeIsFresh | buffer/PoolSubpage.cpp:50-64 | with room left, the element handed out was free and within the run, by hint or by scan |
| Subpages.GiveIsValid | buffer/PoolSubpage.cpp:66-88 | giving back keeps the subpage valid, and the count reaches its maximum if and only if nothing is taken |
| Subpages.GiveThenTake | buffer/PoolSubpage.cpp:107-118 | an element just freed is the next handed out, and the two undo each other |
| PoolSubpages.PoolSubpage.constructor | buffer/PoolSubpage.cpp:22-48 | all elements free, a bitmap large enough for every small class, first in its pool |
| PoolSubpages.PoolSubpage.AddToPool | buffer/PoolSubpage.cpp:91-97 | the ring gains the subpage right behind its head and stays a ring in both directions |
| PoolSubpages.PoolSubpage.RemoveFromPool | buffer/PoolSubpage.cpp:99-105 | the ring loses exactly this member, the others keep their order |
| PoolSubpages.PoolSubpage.SoleMember | buffer/PoolSubpage.cpp:82-83 | `prev == next` tests that the pool has no other member |
| PoolSubpages.PoolSubpage.FindNextAvail | buffer/PoolSubpage.cpp:120-146 | the scan over words and bits finds the lowest clear bit within the run |
| PoolSubpages.PoolSubpage.GetNextAvail | buffer/PoolSubpage.cpp:111-118 | the hint if there is one, used up by this, otherwise the lowest clear bit |
| PoolSubpages.PoolSubpage.Allocate | buffer/PoolSubpage.cpp:50-64 | fails only when full or released; otherwise a fresh index in the handle, and the subpage leaves the pool exactly when it becomes full |
| PoolSubpages.PoolSubpage.Free | buffer/PoolSubpage.cpp:66-89 | the element is free again; the subpage is released if and only if it was not full, is now wholly free and is not alone in its pool; the ring follows |
| ChunkLists.BandsOverlap | buffer/PoolArena.cpp:33-38 | neighbouring bands overlap, q00 keeps every chunk with a byte in use, and qInit keeps all |
| ChunkLists.BandIs | buffer/PoolChunkList.cpp:13-23 | for free bytes in whole pages a band is exactly a range of the share in use: up to 24% of the chunk, anything to 49%, 24 to 74%, 49% and up, 74% and up, and full |
| ChunkLists.CapacityIs | buffer/PoolChunkList.cpp:25-29 | a list takes exactly the requests up to 100, 99, 75, 50, 25 and 0 hundredths of the chunk |
| ChunkLists.UsageIs | buffer/PoolChunk.cpp:140-147 | the usage is the used share in percent, rounded up, 100 exactly when full and else 99 at most |
| ChunkLists.AddFindsBand | buffer/PoolChunkList.cpp:82-89 | the chain of `add` ends in a list within whose bounds the chunk lies |
| ChunkLists.MoveFindsBand | buffer/PoolChunkList.cpp:52-79 | the chain of `move` ends in a list within whose bounds the chunk lies, or with no list if and only if the chunk is wholly free |
| ChunkLists.MoveAssertions | buffer/PoolChunkList.cpp:63-79 | the usage assertions of `move` and `move0` cannot fail on the way |
| ChunkChains.ChunkChain.Add0 | buffer/PoolChunkList.cpp:92-104 | the linked list gains the chunk at its front, links agreeing both ways |
| ChunkChains.ChunkChain.Remove | buffer/PoolChunkList.cpp:108-119 | the linked list loses exactly this chunk, from head, middle or end |
| ArenaState.EmptyInv | buffer/PoolArena.cpp:17-46 | a new arena satisfies the whole invariant |
| ArenaSafety.HeldRegionsDisjoint | buffer/PoolChunk.cpp:351-369 | the bytes `initBuf` and `initBufWithSubpage` give any two holders in a chunk are disjoint, runs and elements mixed |
| ArenaSafety.HeldRegionInChunk | buffer/PoolChunk.cpp:351-369 | and inside the chunk |
| ArenaSafety.HeldChunkInUse | buffer/PoolArena.cpp:173-181 | a chunk that any holder refers to is there and not wholly free |
| ArenaOps.AllocPooledInv | buffer/PoolArena.cpp:88-96 | taking an element from a pool keeps the arena invariant |
| ArenaOps.AllocNormalInv | buffer/PoolChunkList.cpp:36-50 | taking a run and moving the chunk up the lists keeps the arena invariant |
| ArenaOps.AllocSubpageInv | buffer/PoolChunk.cpp:156-174 | carving a new subpage and taking its first element keeps the arena invariant, at most one idle subpage a class included |
| ArenaOps.ReleaseInv | buffer/PoolChunkList.cpp:52-79 | a release, with or without the subpage, with the chunk moved down or destroyed, keeps the arena invariant |
| ArenaOps.MovedToFront | buffer/PoolChunkList.cpp:92-126 | a chunk that changes lists comes first in the new one, and nothing else about the lists changes |
| ArenaSteps.FreedServesNext | buffer/PoolSubpage.cpp:50-90 | an element given back to a subpage that was full, or is first in its pool, is the next one its class is served |
| ArenaRuns.StepInv | buffer/PoolArena.cpp:65-182 | every move of the arena and its thread cache keeps the invariant |
| ArenaRuns.RunInv | buffer/PoolArena.cpp:17-182 | so it holds at every point of every run |
| ArenaRuns.RunSafety | buffer/PoolThreadCache.cpp:82-103 | over every run, any two held regions, live or cached, are inside existing chunks and share no byte |
| ArenaRuns.DestroyedChunkUnused | buffer/PoolArena.cpp:173-181 | a chunk is destroyed only when no live buffer, no cached entry and no subpage refers to it |
| ArenaRuns.StepKeepsRegions | buffer/PoolArena.cpp:65-182 | no move changes the bytes of a region somebody keeps |
| ArenaRuns.SingleStays | buffer/PoolSubpage.cpp:74-88 | no move releases a subpage of one element or destroys its chunk |
| ArenaRuns.SingleForever | buffer/PoolSubpage.cpp:74-88 | over every run a chunk with a subpage of one element is in the arena for good |
| ArenaIdle.SingleIff | buffer/PoolChunk.cpp:156-174 | in any arena a subpage has one element if and only if its class is a whole number of pages |
| ArenaIdle.LastReturnReleasesIff | buffer/PoolSubpage.cpp:74-88 | with another subpage in the pool, the return of the last taken element releases the subpage if and only if its class is not whole pages |
| ArenaIdle.UnusedChunk | buffer/PoolArena.cpp:173-181 | a chunk nobody holds anything of is wholly free if and only if no subpage is left on it |
| ArenaIdle.WholePagesPin | buffer/PoolChunk.cpp:101-119 | from the first small request of whole pages served from it, a chunk is in the arena for good |
| ArenaIdle.IdleChunkExists | buffer/PoolSubpage.cpp:74-77 | for every page and chunk size a run of four states: one page allocated and freed, nothing held, one subpage and its chunk left |
| ArenaOwners.StepLedger | buffer/PoolThreadCache.cpp:82-103 | live buffers after a move are those before, less the one taken, plus the one given, which was nobody's |
| ArenaOwners.StepIsOperation | buffer/PoolArena.cpp:65-182 | and every other live buffer keeps its region, byte for byte |
| ArenaOwners.Chain | buffer/PoolThreadCache.cpp:170-187 | operations compose: what one gives the next may take back |
| ArenaLinks.ServedGrows | buffer/PoolChunk.cpp:176-196 | the contract of `allocateRun` is what the arena needs of a chunk |
| ArenaLinks.SubpageRun | buffer/PoolChunk.cpp:156-174 | the run behind a subpage is an exact page class that whole elements tile |
| ArenaLinks.ElementKept | buffer/PoolSubpage.cpp:74-88 | the three tests of `free` keep the subpage exactly when the arena model does |
| ArenaLinks.GrantedRoom | buffer/PoolArena.cpp:65-77 | a granted region has room for the request, wastes less than a quarter above 64 bytes, and shares no byte with any region held |
| ArenaSearch.NewChunkHasRoom | buffer/PoolArena.cpp:125-127 | a new chunk has room for every class: the assertion behind `newChunk` cannot fail |
| ArenaSearch.NothingRefused | buffer/PoolChunkList.cpp:36-40 | a chunk with room for a class is in a list whose limit admits the class |
| ArenaSearch.NoChunkHasRoom | buffer/PoolArena.cpp:117-127 | with the five lists asked in vain no chunk of the arena has room, those of q100 included |
| PoolArenas.PoolArena.constructor | buffer/PoolArena.cpp:17-46 | the object starts as the empty arena |
| PoolArenas.PoolArena.SettleUp | buffer/PoolChunkList.cpp:42-45 | after an allocation the chunk is in the list `add` chooses |
| PoolArenas.PoolArena.SettleDown | buffer/PoolChunkList.cpp:54-58 | after a release the chunk is in the list `move` chooses, or gone |
| PoolArenas.PoolArena.AllocateFrom | buffer/PoolChunk.cpp:101-119 | a chunk serves the class if and only if it has room; without room it is left as it was, and with it nobody else's region changes |
| PoolArenas.PoolArena.AllocateInList | buffer/PoolChunkList.cpp:36-50 | the first chunk of the list with room serves; none if and only if no chunk of the list has room, whatever the limit of the list |
| PoolArenas.PoolArena.AllocateNormal | buffer/PoolArena.cpp:117-130 | a new chunk comes if and only if no chunk of the arena has room, and always serves; otherwise the first with room in the order q50, q25, q00, qInit, q75 |
| PoolArenas.PoolArena.AllocatePooled | buffer/PoolArena.cpp:88-96 | the first pool member always has an element to give |
| PoolArenas.PoolArena.AllocateSmall | buffer/PoolArena.cpp:80-106 | a small request gets a region of its class, the oldest cached one if there is any |
| PoolArenas.PoolArena.AllocateLarge | buffer/PoolArena.cpp:109-114 | the same for a normal request |
| PoolArenas.PoolArena.Allocate | buffer/PoolArena.cpp:65-77 | not pooled if and only if larger than a chunk; otherwise a region of the least class, cached ones first, and nobody else's region changes |
| PoolArenas.PoolArena.FreeElement | buffer/PoolChunk.cpp:263-281 | the element goes back and the subpage goes exactly when the arena model says |
| PoolArenas.PoolArena.TakeBack | buffer/PoolChunk.cpp:263-291 | `free` of a chunk is the release of the arena model, for runs and elements |
| PoolArenas.PoolArena.FreeChunk | buffer/PoolArena.cpp:158-182 | exactly this region is given up; the queues of the cache are left alone |
| PoolArenas.PoolArena.Free | buffer/PoolArena.cpp:140-152 | the buffer gives up its region, which becomes the youngest entry of the queue of its class if there is a cache for it, and leaves the queues alone if not; nobody else's region changes |
| PoolArenas.PoolArena.Reallocate | buffer/PoolArena.cpp:188-212 | nothing happens when the capacity is unchanged; otherwise the buffer gets a different region of the least class for the new capacity, or none past the chunk size, for its old one, and nobody else's region changes |
| PoolArenas.PoolArena.FreeEntries | buffer/PoolThreadCache.cpp:170-187 | the oldest entries go back to their chunks, as many as asked; no live buffer is affected |
| PoolArenas.PoolArena.Trim | buffer/PoolThreadCache.cpp:143-158 | every cache gives up as many entries as its counter falls short of its size, and the counters start over; no live buffer is affected |
| PoolArenas.PoolArena.TrimmedIs | buffer/PoolThreadCache.cpp:170-222 | what is left of a queue is its youngest entries: all if it was hit as often as it holds, else fewer by the difference |
| PoolArenas.PoolArena.CacheAllocate | buffer/PoolThreadCache.cpp:72-93 | a hit gives the oldest entry of the class and adds one to its counter, a miss adds nothing; every call is counted, and at the threshold the caches are trimmed and the count starts over |
| Capacities.NewCapacityIs | buffer/PoolByteBufAllocator.cpp:165-188 | the new capacity follows the law: below the threshold the least power of two from 64 up, above it the next multiple, the maximum only where these pass it |
| Capacities.NewCapacityUnique | buffer/PoolByteBufAllocator.cpp:165-188 | no other capacity follows the law |
| Capacities.CalculateNewCapacity | buffer/PoolByteBufAllocator.cpp:165-188 | an exception if and only if the need exceeds the maximum; otherwise that capacity |
| Capacities.ValidateAndCalculateChunkSize | buffer/PoolByteBufAllocator.cpp:108-119 | an exception if and only if the shifted page would exceed the largest chunk; otherwise exactly the shift |
| PoolByteBufs.PoolByteBuf.Retrieve | buffer/PoolByteBuf.cpp:197-207 | drops exactly a prefix of the contents |
| PoolByteBufs.PoolByteBuf.RetrieveAsString | buffer/PoolByteBuf.cpp:214-220 | what is returned and what is left make up the old contents |
| PoolByteBufs.PoolByteBuf.Reallocate | buffer/PoolArena.cpp:188-212 | nothing happens when the capacity is unchanged; otherwise the contents are the same in the new region, cut to the capacity, and no byte outside it changes |
| PoolByteBufs.PoolByteBuf.Capacity | buffer/PoolByteBuf.cpp:311-329 | a larger capacity moves the buffer if and only if it exceeds the region; a smaller one leaves it only if more than half of the region, and of one up to 512 bytes all but fifteen, stays in use; the contents are kept, or cut by shrinking |
| PoolByteBufs.PoolByteBuf.EnsureWritable | buffer/PoolByteBuf.cpp:272-284 | room for the bytes, indices and contents as before; the length is unchanged if they fit, and else the one the law of growth gives for the need, or all of a new region |
| PoolByteBufs.PoolByteBuf.WriteBytes | buffer/PoolByteBuf.cpp:233-268 | appends, growing by the law in place or into a new region; no byte outside its own regions changes |
| PoolByteBufs.PoolByteBuf.WriteBeside | buffer/PoolByteBuf.cpp:233-268 | any other buffer whose region is apart reads the same afterwards |
| BufferSpans.SpansSeparate | buffer/PoolChunk.cpp:351-369 | the stretches of memory behind two different held tokens share no byte |
| BufferWiring.BuffersSeparate | buffer/PoolByteBuf.cpp:20-44 | no two buffers share a byte, pooled or not |
| BufferWiring.LooseSeparate | buffer/PoolArena.cpp:188-212 | a region just allocated shares no byte with any buffer |
| BufferAllocators.PoolByteBufAllocator.constructor | buffer/PoolByteBufAllocator.cpp:146-158 | an allocator starts with no buffers and everything wired |
| BufferAllocators.PoolByteBufAllocator.GrantOf | buffer/PoolChunk.cpp:351-369 | what a buffer is given for a token of the arena is exactly the region's stretch of its chunk's memory, inside it, with room for the request |
| BufferAllocators.PoolByteBufAllocator.PoolBuffer | buffer/PoolByteBufAllocator.cpp:129-158 | no buffer for nothing; otherwise a new empty one with the room asked for, and every other buffer reads the same |
| BufferAllocators.PoolByteBufAllocator.SetCapacity | buffer/PoolByteBuf.cpp:311-329 | the contents are kept or cut, in place or through allocation, copy and free; pooled if and only if the new region fits a chunk; the old region becomes the youngest entry of its cache, or goes past it when the buffer leaves the pool; every other buffer reads the same |
| BufferAllocators.PoolByteBufAllocator.EnsureWritable | buffer/PoolByteBuf.cpp:272-284 | room for the bytes, by the law of growth if they do not fit and with nothing changed if they do; every buffer, this one too, reads the same |
| BufferAllocators.PoolByteBufAllocator.WriteBytes | buffer/PoolByteBuf.cpp:233-268 | the bytes are appended, the buffer growing by the law and moving if need be, and every other buffer of the allocator reads what it read before |
| BufferAllocators.PoolByteBufAllocator.Deallocate | buffer/PoolByteBuf.cpp:54-64 | the buffer is gone, its region is the youngest entry of the cache of its class if there is one, and every other buffer reads the same |
| BufferAllocators.ShrinkIntoSameClass | buffer/PoolByteBuf.cpp:316-326 | which shrinks move a buffer into a region of the size it had: if and only if in the smallest class, or between 160 and 512 bytes within the spacing of the class |
| MpscQueues.Fifo | MpscQueue.h:42-76 | dequeued items followed by pending ones are the exchange order; a dequeue takes the first, an exchange adds at the end, a link changes neither |
| MpscQueues.MpscQueue.ExchangeHead | MpscQueue.h:42-54 | the first half of enqueue appends to the history; the previous head is not freed and has no successor yet |
| MpscQueues.MpscQueue.LinkNext | MpscQueue.h:46-52 | however late a producer links, its previous head still exists and is unlinked |
| MpscQueues.MpscQueue.TryDequeue | MpscQueue.h:62-76 | fails if and only if the queue is empty or its oldest item is not linked; otherwise takes the oldest, and deletes only a node whose link is set |
| MpscQueues.MpscQueue.Empty | MpscQueue.h:78-83 | true exactly when a dequeue would fail |
| EventLoops.EmptyMeansCovered | EventLoop.cpp:198-214 | a drain that stops with items pending stops at a link that another thread owes, and that thread will wake the loop |
| EventLoops.StepInv | EventLoop.cpp:112-214 | every step of any thread keeps the protocol invariant |
| EventLoops.NoLostWakeup | EventLoop.cpp:112-148 | over every interleaving, at `poll` any work not taken and any `quit` called since the start is announced by the eventfd or by a thread about to write it |
| EventLoops.BlockedMeansDone | EventLoop.cpp:172-179 | a loop that blocks with no caller under way has run everything, and no `quit` was called since it started |
| EventLoops.RunsInExchangeOrder | EventLoop.cpp:198-214 | functors run once each in exchange order |
| EventLoops.OneTurnRunsAll | EventLoop.cpp:131-148 | with work pending and the callers done, `poll` does not block, and the turn it starts runs all of it |
| EventLoops.EveryTurnRunsAll | EventLoop.cpp:131-148 | with the callers done, over every course of the loop's own steps, whenever it comes to look at `quit_` it has run everything |
| EventLoops.TurnEnds | EventLoop.cpp:131-214 | and it comes to it: until then some step of its own is enabled and each one brings it nearer |
| EventLoops.QuitIffCalled | EventLoop.cpp:112-131 | over every interleaving `quit_` is set if and only if some call of `quit` is later than every start of the loop |
| EventLoops.StopsOnlyOnQuit | EventLoop.cpp:125-150 | the loop returns only when `quit` was called since it last started |
| EventLoops.QuitEndsLoop | EventLoop.cpp:112-150 | with a quit called and the callers done, every course of the loop is no longer than a turn, and where it comes to look at `quit_` it has run all and can only return |
| EventLoops.QuietsDown | EventLoop.cpp:187-214 | once the eventfd is read and nobody writes it, `poll` comes back by its timeout only |
| EventLoops.CallThenQuit | EventLoop.cpp:112-214 | a run from the start: a functor queued and a quit called at `poll`; the one is run and the loop returns |
| TcpConnections.StepInv | TcpConnection.cpp:100-296 | every handler keeps wire plus output equal to the accepted bytes, write interest on exactly while something waits, and the half-close conditions |
| TcpConnections.ClosesAfterDrain | TcpConnection.cpp:155-178 | the half-close is issued only when everything accepted is on the wire |
| TcpConnections.ShutdownIsHeard | TcpConnection.cpp:165-191 | over every schedule, after a shutdown of a connected connection it is closing or closed for good, closed exactly by a teardown, and unless one came its write side is closed as soon as nothing waits |
| TcpConnections.ClosingIsAsked | TcpConnection.cpp:155-178 | and a connection is closing, or its write side closed, only after such a shutdown |
| TcpConnections.SendMoves | TcpConnection.cpp:100-153 | a message goes to the wire as far as the kernel takes it if nothing waits, and behind what waits otherwise |
| TcpConnections.WriteMoves | TcpConnection.cpp:243-281 | what a write reports goes from the front of the output to the wire, and nothing else does |
| TcpConnections.DrainsOut | TcpConnection.cpp:243-281 | writes of as many bytes as wait, in whatever portions, drain the output and half-close a connection that is shutting down |
| TcpConnections.TeardownCloses | TcpConnection.cpp:180-191 | a force close, or the peer's, brings down a connection that was up, and takes nothing back from the wire |
| TcpConnections.DestroyedCloses | TcpConnection.cpp:209-220 | dropping a connection brings down one that is connected and leaves any other as it is |
| TcpConnections.Notifies | TcpConnection.cpp:100-275 | the high-water mark is reported exactly when the output comes to reach it, completion exactly when the output drains or a message goes out whole, over all handlers |
| TcpConnections.SendThenShutdown | TcpConnection.cpp:100-281 | a run for every message: blocked, shut down, drained, half-closed with all of it on the wire |
| TcpConnections.StreamIntegrity | TcpConnection.cpp:100-281 | all of this for every sequence of calls and write results |
| TcpConnections.AllOrNothing | TcpConnection.cpp:106-152 | a message is accepted whole, or not at all exactly when the connection is down or a direct write faults |
| TcpConnections.CalmRunsAcceptAll | TcpConnection.cpp:100-153 | without teardown and faults, the accepted bytes are all messages in order |
| TcpConnections.TcpConnection.SendInLoop | TcpConnection.cpp:100-153 | the method's branches are the send of the model, callbacks included |
| TcpConnections.TcpConnection.HandleWrite | TcpConnection.cpp:243-281 | draining, switching write interest off and the late half-close are the model's |
| TcpConnections.TcpConnection.Shutdown | TcpConnection.cpp:165-178 | half-closes at once when nothing waits, otherwise leaves it to the drain |
| TcpConnections.TcpConnection.ForceClose | TcpConnection.cpp:180-191 | tears down from the connected states only |
| HttpSyntax.RequestLineIff | http/HttpContext.cpp:8-37 | a request line is accepted if and only if it is method, space, target without space, space, and one of the two versions |
| HttpSyntax.GrammarIsAccepted | http/HttpContext.cpp:8-37 | and its parts end up in the right fields, the target split at its first question mark |
| HttpSyntax.StoredValue | http/HttpRequest.h:96-107 | for every field and value, with any of the six characters of white space before and after the value, the value is what is stored |
| HttpSyntax.NothingElseRemoved | http/HttpRequest.h:96-107 | what follows the colon is white space, the stored value and white space, and the stored value begins and ends with none |
| HttpParsing.ChunkIndependence | http/HttpContext.cpp:40-79 | feeding a and then b is feeding a+b, up to the first completion or error; later bytes stay unread |
| HttpParsing.AnyChunking | http/HttpContext.cpp:40-79 | however a request is cut into pieces, state, request, unread bytes and result are those of the whole |
| HttpParsing.PrintedRequestParsesBack | http/HttpContext.cpp:8-79 | a request printed from method, path, query, version and headers parses back to exactly these, up to the first line without a colon, and what follows stays unread |
| HttpParsing.ReadyAfter | http/HttpContext.cpp:40-79 | as long as no line is refused the context stays fit for another call, or has a whole request |
| HttpParsing.RetryAllowedIff | http/HttpContext.cpp:44-57 | after an error the line is unread and the state unchanged, and no method is set if and only if the line does not begin with a method and a space |
| HttpParsing.RetryRefused | http/HttpRequest.h:33-50 | a concrete input after which the assertion of `setMethod` would fail on the next call |
| HttpContexts.Buffer.SearchCRLF | buffer/Buffer.h:91-95 | the first CR LF, or none |
| HttpContexts.HttpRequest.SetMethod | http/HttpRequest.h:33-50 | true exactly for GET, POST, HEAD, PUT and DELETE, each giving its method; anything else is invalid |
| HttpContexts.HttpRequest.AddHeader | http/HttpRequest.h:96-107 | the two trimming loops store the trimmed value under the field, replacing an earlier one, and change nothing else |
| HttpContexts.HttpContext.ProcessRequestLine | http/HttpContext.cpp:8-37 | fields set step by step and the result are those of the grammar's function, on failure too |
| HttpContexts.HttpContext.ParseRequest | http/HttpContext.cpp:40-79 | the loop ends and leaves state, request, buffer and result as the parsing function says |
| HttpContexts.OnMessage | http/HttpServer.cpp:47-60 | a finished request is handed on and the context starts over; unless a line was refused it is ready for the next message |

## Left out

- `m_cachedBuffers` of a chunk: a popped pointer belongs to an earlier region, so the pointer a buffer gets from it need not match its offset; the path without one is modelled, and the thread cache, where an entry keeps its own region.
- Unpooled (huge) chunks: `PoolArena.Allocate` answers that the request is not pooled, and the buffer gets an array of its own; the chunk object around it and its destruction add nothing to the invariants.
- Locks, and freeing a buffer into the cache of another thread: each arena operation is one step of a sequential model, with one thread cache.
- Memory order weaker than sequential consistency in the queue.
- The timing wheel (`timer/`) and the adders in `buffer/LongAddr/`: what they promise is not decided by the code.
- The heap inside `BestFitQueue`: a set with a least element.
- Recyclers, destructors, `new` and `delete` of subpages and chunks, and statistics counters.
- PoolArenas.PoolArena: keeps chunk objects but its subpages, pool rings and chunk lists as values (`Subpage`, sequences); `PoolSubpages.PoolSubpage` and `ChunkChains.ChunkChain` show that the in-place forms mean the same.
- PoolArenas.PoolArena.NewChunk: lists the new chunk before its first allocation, the source after it; the list it ends up in is the same.
- PoolArenas.PoolArena.Reallocate: exchanges regions only; with the copy of the bytes in between, as the source has it, it is `BufferAllocators.PoolByteBufAllocator.SetCapacity`.
- BufferAllocators.PoolByteBufAllocator: which region a buffer lies on is kept in two tables of the allocator, where the source keeps chunk and handle in the buffer; a deallocated buffer is dropped, not recycled.
- PoolSubpages.PoolSubpage: a bitmap word is 64 booleans; the shift keeps the sign bit as on a signed `long`.
- SizeClasses.SizeClass: integers are unbounded, and shifts and masks are written as powers of two and remainders; for a request of 2^30 bytes, the largest chunk, `size << 1` passes the 32-bit range in the source.
- ChunkLists.BandsOverlap: thresholds are exact quotients where the source computes in doubles, and the threshold of q100, whose upper usage is INT_MAX, is taken as -1.
- HttpContexts.HttpContext.ParseRequest: not called in `kGotAll`, where the server resets first, nor in `kExpectBody`, where no branch makes progress.
- EventLoops.StepInv: `callingPendingFuncs_` starts false, which the source leaves uninitialised; `poll` may always return, and channels other than the eventfd are any code run in the handling phase.
- TcpConnections.StreamIntegrity: takes it of the kernel that writing a byte to a socket whose write side is closed faults (EPIPE); a write of nothing there may succeed.
- TcpConnections.TcpConnection: the callbacks for completed writes and the high-water mark are taken to be set; user callbacks, reading and socket errors are not modelled, and no message is sent while connecting, which `send` tests for.
- Sockets, epoll, addresses, acceptor, connector, thread pools, logging and the HTTP response.
