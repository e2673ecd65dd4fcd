# Verified models of COREMU's concurrent core and of SeaBIOS algorithms

COREMU runs many emulated cores on as many host threads. They send each other interrupts through
FIFO queues and wake each other with signals. The tree also bundles SeaBIOS, with a memory
allocator, a memory map, a decompressor, cooperative threads and USB enumeration of its own. This
project models these components in Dafny and proves what they promise, over every input, every
interleaving and every run.

Concurrent code is modelled as a state machine: a label names the thread and what the environment
chose, `Next` gives the new state, and a run is a sequence of states and labels of any length with
any number of threads. Sequential code that changes things in place is modelled by classes and by
methods on arrays, each proved against a function on values.

| modules | source | subject |
|---|---|---|
| `MsQueue`, `MsQueueInvariant`, `MsQueueFifo`, `MsQueueLinear`, `MsQueueProgress`, `MsQueueCount` | main/ms-queue.c | lock-free queue of Michael and Scott (PODC 1996) |
| `LockQueue`, `LockQueueProofs` | main/lock-queue.c | spinlock queue with an unlocked consumer |
| `Intr`, `IntrProofs` | main/intr.c | adaptive interrupt signalling |
| `Pmm`, `PmmChain`, `PmmProofs`, `PmmAlloc`, `PmmRuns`, `PmmManager` | bios/seabios/src/pmm.c | zone allocator behind the POST Memory Manager interface |
| `E820`, `E820Map` | bios/seabios/src/memmap.c | the e820 memory map |
| `Lzma`, `LzmaOutput`, `LzmaStream`, `LzmaDecoder`, `LzmaEncoder`, `LzmaRoundTrip` | bios/seabios/src/lzmadecode.c | LZMA decoder, with a reference encoder |
| `Threads` | bios/seabios/src/stacks.c | cooperative threads |
| `Usb`, `UsbProofs` | bios/seabios/src/usb.c | USB enumeration over a hub tree |
| `Words`, `Counting` | | machine words, cardinalities and 64-bit counters |

How the queues are read: every step is one atomic access. A `pointer_t` assignment in ms-queue.c is
two 8-byte loads that other threads may separate, and `cmp128` is two such loads followed by a
compare-and-swap. The witnesses of an invariant (the order in which nodes were linked, who holds
the lock, the chains of blocks in a zone) are explicit values that each step computes from the
ones before.

The repository has no LZMA encoder. `LzmaEncoder` is one written for this project from the format's
side: a list of binary decisions for each symbol and an interval of integers that the decisions
narrow. It shares the table layout and the adaptation of probabilities with the decoder, and none of
its words Range and Code, loops or branches. It is the independent reference against which the
decoder's result is stated.

Where the code does not do what one would expect of it:

- **ZoneLow requests.** `zonelow_expand` subtracts the size of the EBDA from the new bottom without
  looking for a wrap-around. On a machine without high memory `pmm_malloc` can therefore grant, straight
  after `malloc_setup`, a block over its own tracking record and move the bottom of ZoneLow to 0
  (`PmmManager.WrappedRequest`). The EBDA ends where ZoneLow begins exactly if neither subtraction
  wraps (`PmmAlloc.ExpandExact`), and after every operation of a run exactly if none ever does
  (`PmmRuns.RunExact`).
- **ZoneHigh.** `malloc_setup` asks for `MALLOC_MIN_ALIGN` spare bytes but aligns the zone upwards, so
  the zone is a part of the memory found exactly if that memory ends on a 16-byte boundary
  (`PmmManager.HighZoneInside`); `PmmManager.HighZoneOutside` gives an area for which it is not. The
  zones are apart and free all the same, unless that memory starts below the end of the BIOS tables or ends in
  the last 15 bytes below 4 GiB (`PmmManager.SetupGood`).
- **A full e820 array.** An insertion into a full array is dropped. The call is then not the update
  of the map (`E820Map.OverflowIsVisible`, `E820Map.FullArrayFails`); it is one exactly if the
  updated map's canonical list has at most 32 entries (`E820Map.MemMap.Add`). Over a sequence of
  calls the array is right after each one exactly if that list always fits (`E820Map.AddedExact`).
- **Turns.** A thread that starts another one runs again as soon as that one yields, so others need
  not have had a turn in between (`Threads.StarterComesBack`). Between two turns of a thread every
  other one has a turn if the first turn ended with a yield, and none has if it ended with a start
  (`Threads.TurnIffYield`).
- **The doubt in `coremu_get_intr`** (main/intr.c:69-70) is unfounded for either queue with its one
  consumer: a positive size guarantees that the following dequeue succeeds.

## Model

| member | source | states |
|---|---|---|
| MsQueueInvariant.AlwaysSafe | main/ms-queue.c:151-174 | under the invariant no thread is ever about to dereference NULL or a node that was not allocated |
| MsQueueInvariant.LocalStable | main/ms-queue.c:151-208 | what one thread knows from its loads survives every step of every other thread |
| MsQueueInvariant.StepInv | main/ms-queue.c:142-215 | every step of every thread keeps the chain of nodes, the ownership of unlinked nodes and each thread's partial snapshots |
| MsQueueFifo.NoBadDereference | main/ms-queue.c:153-187 | in every reachable state every enabled step is safe, so the safety test inside the step relation excludes no behaviour |
| MsQueueFifo.Shape | main/ms-queue.c:255-267 | in every reachable state the list runs without a cycle from Head to NULL, with Tail at the last or last but one node and never behind Head |
| MsQueueFifo.AbsIs | main/ms-queue.c:217-228 | walking the next fields from Head yields exactly the values of the nodes linked and not yet unlinked, in link order |
| MsQueueFifo.Refines | main/ms-queue.c:161-208 | a link CAS appends the value to the abstract queue, a Head CAS removes its first value, which is the one returned, and no other step changes it |
| MsQueueLinear.EmptyWhenRead | main/ms-queue.c:187-191 | if a dequeue goes on to return false, the abstract queue was empty at the moment it loaded head->next as NULL |
| MsQueueLinear.LegalHistory | main/ms-queue.c:142-215 | in every run the calls' effects, in the order they take place, form a legal FIFO history that ends in the present queue |
| MsQueueLinear.OnceWithinCall | main/ms-queue.c:142-215 | at any moment a thread's effects are its returned calls, with those results, plus at most the call it is in, so each call takes effect once, between its start and its return |
| MsQueueLinear.RealTimeOrder | main/ms-queue.c:142-215 | a call that returned before another one started takes effect before it, in the history of every later moment |
| MsQueueLinear.TagsGrow | main/ms-queue.c:166-173 | between two moments of a run Head, and likewise Tail, is unchanged or has a larger tag |
| MsQueueLinear.ValidatedSnapshot | main/ms-queue.c:152-155 | a pointer read by two separate loads that passes validation was the true value at every moment since its tag was loaded |
| MsQueueLinear.CompareWritesNothing | main/ms-queue.c:79-86 | cmp128 never changes memory, though it is a CAS whose new value was loaded earlier |
| MsQueueProgress.FailureHasCause | main/ms-queue.c:151-170 | a failed loop iteration overlaps a successful change of Head, Tail or a next field |
| MsQueueProgress.LockFree | main/ms-queue.c:151-209 | in a run with E started enqueues no thread retries more than 3E times in total |
| MsQueueCount.SizeStep | main/ms-queue.c:175-212 | length less uncounted enqueues plus uncounted dequeues changes only at the two counting instructions, by one |
| MsQueueCount.Conserved | main/ms-queue.c:175-212 | modulo 2^64 the counter is the length, less the enqueues linked but not counted, plus the dequeues unlinked but not counted |
| MsQueueCount.SizeIs | main/ms-queue.c:230-233 | read as a signed word the counter is exactly that number whenever it fits |
| MsQueueCount.PositiveSizeSuffices | main/intr.c:63-74 | when the only consumer has seen a positive size, the dequeue it starts next does not return false |
| LockQueueProofs.AlwaysSafe | main/lock-queue.c:84-111 | no step dereferences or frees a node that is not allocated, although addresses are reused |
| LockQueueProofs.StepInv | main/lock-queue.c:84-111 | every step of the producers and of the consumer keeps the chain, the lock's holder and the nodes' owners |
| LockQueueProofs.NeverDangles | main/lock-queue.c:92-108 | in every reachable state every enabled step is safe: nothing freed is ever touched |
| LockQueueProofs.OneInside | incl/coremu-spinlock.h:37-57 | at most one producer is between lock and unlock |
| LockQueueProofs.Refines | main/lock-queue.c:92-107 | enqueue takes effect at its first link write and dequeue when Head moves; a false result means an empty queue; nothing else is visible |
| LockQueueProofs.Fifo | main/lock-queue.c:84-111 | in every run the values linked are the values handed out followed by those still queued |
| LockQueueProofs.SizeIs | main/lock-queue.c:113-116 | the counter is the length, less a node linked but not counted, plus one unlinked but not counted |
| LockQueueProofs.PositiveSizeSuffices | main/intr.c:63-74 | a dequeue that follows a positive size does not return false |
| LockQueueProofs.NothingLeaks | main/lock-queue.c:86-108 | every allocated node is queued, waits to be linked, or waits to be freed |
| LockQueueProofs.QuiescentMemory | main/lock-queue.c:58-111 | with nobody in a call, the nodes allocated are one more than the values queued, and the counter is exact |
| IntrProofs.PendingStep | main/intr.c:81-86 | after every step sig_pending still means that a signal is queued, about to be sent, or being handled |
| IntrProofs.NoLostInterrupt | main/intr.c:76-174 | while more interrupts wait than the threshold allows, a sender has yet to decide or to signal, a signal is queued, the handler runs, or a notified drain is not over |
| IntrProofs.RestIsBounded | main/intr.c:81-89 | a core at rest has an exact counter and leaves at most its threshold, hence at most 100, interrupts waiting |
| IntrProofs.PullSucceeds | main/intr.c:63-74 | the dequeue of the drain loop never finds the queue empty |
| IntrProofs.NoneLostNoneTwice | main/intr.c:124-161 | the interrupts put into the queue are those handled, the one in hand and those queued, in order |
| IntrProofs.Progress | main/intr.c:76-174 | every step other than a new send lowers a bound on the steps left |
| IntrProofs.ComesToRest | main/intr.c:76-174 | a run without new sends takes at most as many steps as that bound says at its start |
| IntrProofs.StuckMeansRest | main/intr.c:124-174 | only a core at rest has no step left but new sends |
| IntrProofs.WakeUpDrainsAll | main/intr.c:76-135 | once more interrupts wait than the threshold allows and the senders are done, the core rests only after handling every interrupt sent |
| PmmChain.BlocksDisjoint | bios/seabios/src/pmm.c:120-130 | live blocks on the chains of saved positions do not overlap, in one zone or in two |
| PmmChain.OnlyPredecessor | bios/seabios/src/pmm.c:222-239 | exactly one live block has saved the position of a given one |
| PmmProofs.PatchTracks | bios/seabios/src/pmm.c:230-238 | the record the search finds and patches is the owner of the predecessor, and afterwards all records agree with the chains again |
| PmmProofs.FreeLast | bios/seabios/src/pmm.c:146-155 | freeing the most recent block of a zone moves the current position to the next live block and keeps every chain |
| PmmProofs.FreeInner | bios/seabios/src/pmm.c:222-239 | freeing any other block keeps every chain by patching one record |
| PmmProofs.FreeAtInv | bios/seabios/src/pmm.c:241-262 | pmm_free takes exactly the data block and its tracking record out of the chains |
| PmmAlloc.HighestFit | bios/seabios/src/pmm.c:119-130 | despite the unsigned subtraction zone_malloc takes the highest aligned place that fits, and fails only if no place fits |
| PmmAlloc.TakeInv | bios/seabios/src/pmm.c:119-130 | a block taken from a zone is new, aligned and inside the zone, and becomes the first of its chain |
| PmmAlloc.ExpandExact | bios/seabios/src/pmm.c:74-112 | after zonelow_expand the EBDA ends where ZoneLow begins if and only if neither subtraction wrapped when the EBDA moved |
| PmmAlloc.ExpandInv | bios/seabios/src/pmm.c:48-112 | otherwise moving the EBDA keeps every chain, every current position and the layout of low memory |
| PmmAlloc.ExpandProvides | bios/seabios/src/pmm.c:104-111 | once the EBDA has moved the request has its place |
| PmmRuns.MallocKeeps | bios/seabios/src/pmm.c:188-220 | unless a subtraction of zonelow_expand wraps, pmm_malloc keeps the chains; a granted block is new, aligned, inside its zone and tracked first; a refused request changes no position and no record, and is refused only without space for the record or for the block |
| PmmRuns.MallocBreaks | bios/seabios/src/pmm.c:73-112 | if one does, the EBDA no longer ends where ZoneLow begins, whether the block is granted or not |
| PmmRuns.FreeKeeps | bios/seabios/src/pmm.c:241-262 | pmm_free keeps the chains and drops two blocks, or changes nothing for an unknown address |
| PmmRuns.RunKeeps | bios/seabios/src/pmm.c:188-262 | any sequence of allocations and frees in which nothing wraps keeps the chains, and their blocks are exactly those granted and not freed, with the sizes requested |
| PmmRuns.RunExact | bios/seabios/src/pmm.c:73-262 | those sequences are exactly the ones that leave the EBDA ending where ZoneLow begins after every operation |
| PmmRuns.NoOverlap | bios/seabios/src/pmm.c:119-262 | after any such sequence no two live blocks overlap, and each lies in the used part of one zone |
| PmmRuns.EbdaUntouched | bios/seabios/src/pmm.c:47-112 | after any such sequence the EBDA, wherever it has moved, overlaps no live block |
| PmmRuns.AllReturned | bios/seabios/src/pmm.c:146-262 | whenever all blocks have been freed every zone is back at its top |
| PmmRuns.FreeInAnyOrder | bios/seabios/src/pmm.c:241-262 | one pmm_free for each live block, in any order, empties the list and returns every zone to its top |
| PmmManager.SetupGood | bios/seabios/src/pmm.c:290-333 | malloc_setup leaves every zone free, and starts with disjoint zones and the EBDA below ZoneLow if and only if the memory found starts above the tables and ends no later than 16 bytes below 4 GiB |
| PmmManager.HighZoneInside | bios/seabios/src/pmm.c:315-332 | ZoneHigh is a non-empty part of the memory found if and only if that memory ends on a 16-byte boundary |
| PmmManager.HighZoneOutside | bios/seabios/src/pmm.c:315-332 | an area of memory after whose end ZoneHigh goes on |
| PmmManager.WrappedRequest | bios/seabios/src/pmm.c:98-111 | straight after malloc_setup without high memory, pmm_malloc grants 0x9fff0 bytes at address 0x10, over the tracking record at 0x8ffe0, and the EBDA does not end where ZoneLow begins |
| PmmManager.Manager.constructor | bios/seabios/src/pmm.c:290-333 | the zones and the list are those of SetupState |
| PmmManager.Manager.Find | bios/seabios/src/pmm.c:132-144 | the loop finds the first zone whose used part contains the address, or none |
| PmmManager.Manager.Allocate | bios/seabios/src/pmm.c:119-130 | the zone and the result are those of ZoneMalloc, about which HighestFit and TakeInv speak |
| PmmManager.Manager.Release | bios/seabios/src/pmm.c:146-155 | the zones are those of Undo, and the result tells whether the block was the most recent one of its zone |
| PmmManager.Manager.ExpandLow | bios/seabios/src/pmm.c:73-112 | the new state is that of Expand, about which ExpandExact, ExpandInv and ExpandProvides speak |
| PmmManager.Manager.Malloc | bios/seabios/src/pmm.c:188-220 | state and result are those of Malloc, about which MallocKeeps speaks |
| PmmManager.Manager.ReleaseData | bios/seabios/src/pmm.c:222-239 | the state is that of FreeData, about which FreeLast and FreeInner speak |
| PmmManager.Manager.Free | bios/seabios/src/pmm.c:241-262 | the state is that of Free, about which FreeKeeps speaks; 0 for a known block, -1 for any other |
| PmmManager.Manager.FindHandle | bios/seabios/src/pmm.c:279-288 | the block of the newest record with the handle, 0 if there is none |
| PmmManager.Manager.GetSpace | bios/seabios/src/pmm.c:264-277 | the free bytes of the zone, less 32 for tracking in the temporary zones, never below 0 |
| E820.IdealUpdates | bios/seabios/src/memmap.c:59-120 | the reference result gives every address in the range the new type, or none for a hole, and leaves every other address as it was |
| E820.IdealCanonical | bios/seabios/src/memmap.c:70-118 | the reference result is sorted, disjoint, without empty or hole entries and maximally merged, and at most two entries longer |
| E820.Unique | bios/seabios/src/memmap.c:70-118 | two canonical lists of the same map are equal |
| E820.ReplayIs | bios/seabios/src/memmap.c:59-120 | folding the reference result over any sequence of calls gives a canonical list in which an address has the type of the last call that covers it |
| E820.HistoryIndependent | bios/seabios/src/memmap.c:59-120 | two sequences of calls that give the same map give the same reference list |
| E820Map.MemMap.constructor | bios/seabios/src/memmap.c:139-144 | the list starts empty |
| E820Map.MemMap.Remove | bios/seabios/src/memmap.c:16-23 | the in-place shift takes out exactly entry i |
| E820Map.MemMap.Insert | bios/seabios/src/memmap.c:25-41 | the in-place shift puts in the entry at i, and a full array stays as it is |
| E820Map.MemMap.Find | bios/seabios/src/memmap.c:72-77 | the first entry that reaches the start of the new item |
| E820Map.MemMap.SplitAt | bios/seabios/src/memmap.c:84-90 | the entry is cut at the start, and what lies beyond the end becomes an entry of its own if there is room |
| E820Map.MemMap.RemoveCovered | bios/seabios/src/memmap.c:94-104 | the entries removed are exactly those that end within the new item |
| E820Map.MemMap.TrimFirst | bios/seabios/src/memmap.c:105-114 | an entry that sticks out keeps what lies beyond the end, or is merged into the new item if it has the same type |
| E820Map.MemMap.Locate | bios/seabios/src/memmap.c:70-93 | the list splits into what precedes the new, perhaps extended, item and the rest |
| E820Map.MemMap.Trim | bios/seabios/src/memmap.c:94-115 | the rest becomes the part of the map above the new item, less an entry merged into it |
| E820Map.MemMap.Add | bios/seabios/src/memmap.c:59-120 | without 64-bit wrap a canonical list stays canonical, and the call is the point-wise update if and only if the updated map's canonical list fits the array |
| E820Map.MemMap.FindHighArea | bios/seabios/src/memmap.c:122-137 | the last suitable entry, and none if there is none: stopping at the first one that ends too low misses none |
| E820Map.MemMap.AddAll | bios/seabios/src/memmap.c:59-120 | any sequence of calls on an empty array leaves a canonical list, each call doing what Add says |
| E820Map.AddedExact | bios/seabios/src/memmap.c:25-120 | after every call the array is the reference list if and only if the reference list fits the array after every call |
| E820Map.ArrayTypes | bios/seabios/src/memmap.c:59-120 | in the array an address then has the type of the last call that covers it |
| E820Map.ArraysAgree | bios/seabios/src/memmap.c:59-120 | two arrays filled by different calls that give the same map hold the same entries |
| E820Map.OverflowIsVisible | bios/seabios/src/memmap.c:25-41 | when the updated map does not fit, the call leaves some address with a wrong type |
| E820Map.FullArrayFails | bios/seabios/src/memmap.c:25-41 | a concrete full array and call for which it does |
| Lzma.BoundSplits | bios/seabios/src/lzmadecode.c:44-46 | the bound is positive, below the range, does not overflow, and leaves both parts at least 2^16 |
| Lzma.ProbsStay | bios/seabios/src/lzmadecode.c:45-46 | a 0 raises and a 1 lowers the probability, and both updates keep it in 31..2017 |
| Lzma.Normalize | bios/seabios/src/lzmadecode.c:42-42 | one byte always brings the range back to 2^24 or more, and none is read past the limit |
| Lzma.Bit | bios/seabios/src/lzmadecode.c:44-52 | a decoded bit leaves a sound coder: range at least 2^16, words in 32 bits, all probabilities in 31..2017, the read position within the input |
| Lzma.Tree | bios/seabios/src/lzmadecode.c:54-57 | a bit tree stays inside its part of the table and yields a value below the number of its leaves |
| Lzma.Reverse | bios/seabios/src/lzmadecode.c:356-366 | a reverse tree stays inside its part of the table and fills only its low bits |
| Lzma.Direct | bios/seabios/src/lzmadecode.c:340-351 | direct bits keep the coder sound and fit below the bits already there |
| Lzma.SlotFits | bios/seabios/src/lzmadecode.c:330-336 | for every slot from 4 to 13 the computed base keeps the tree between SpecPos and Align |
| Lzma.DirectFits | bios/seabios/src/lzmadecode.c:337-355 | for every slot from 14 to 63 the distance has at most 28 bits before the aligned ones |
| Lzma.LitBaseFits | bios/seabios/src/lzmadecode.c:182-186 | the part of the table for a literal ends within LzmaGetNumProbs for all lc, lp, positions and previous bytes |
| Lzma.Length | bios/seabios/src/lzmadecode.c:287-318 | a decoded length is below 272, with all indices in the length coder |
| Lzma.Distance | bios/seabios/src/lzmadecode.c:322-370 | a decoded distance fits 32 bits, 0 for the end marker, with all indices in the table |
| Lzma.Symbol | bios/seabios/src/lzmadecode.c:170-380 | the next symbol has a distance between 1 and the bytes written, and leaves state and distances valid for the next one |
| LzmaOutput.CopyRepeats | bios/seabios/src/lzmadecode.c:383-389 | an overlapping copy repeats the last `distance` bytes over and over |
| LzmaOutput.DecodeReplays | bios/seabios/src/lzmadecode.c:168-392 | from any state the output is the replay of the decoded symbols, and is complete unless the stream ends itself |
| LzmaStream.DecodeSame | bios/seabios/src/lzmadecode.c:168-392 | inputs that agree on the bytes consumed give the same result |
| LzmaStream.TruncatedIsPrefix | bios/seabios/src/lzmadecode.c:168-392 | with a smaller limit the loop succeeds too, on a prefix of the output |
| LzmaDecoder.DecodeProperties | bios/seabios/src/lzmadecode.c:110-131 | succeeds exactly for five bytes whose first is below 225, and then writes it as (pb * 5 + lp) * 9 + lc with lc, lp, pb in range |
| LzmaDecoder.Decoder.Normalize | bios/seabios/src/lzmadecode.c:42-42 | the coder's words are those of Lzma.Normalize, an error exactly at the end of the input |
| LzmaDecoder.Decoder.Bit | bios/seabios/src/lzmadecode.c:44-52 | words and table are those of Lzma.Bit |
| LzmaDecoder.Decoder.Tree | bios/seabios/src/lzmadecode.c:54-57 | the counting loop computes Lzma.Tree |
| LzmaDecoder.Decoder.Reverse | bios/seabios/src/lzmadecode.c:356-366 | the loop computes Lzma.Reverse |
| LzmaDecoder.Decoder.Direct | bios/seabios/src/lzmadecode.c:340-351 | the loop computes Lzma.Direct |
| LzmaDecoder.Decoder.Length | bios/seabios/src/lzmadecode.c:287-318 | computes Lzma.Length |
| LzmaDecoder.Decoder.Distance | bios/seabios/src/lzmadecode.c:322-370 | computes Lzma.Distance |
| LzmaDecoder.Decoder.Literal | bios/seabios/src/lzmadecode.c:188-207 | the two loops compute the matched and the plain literal |
| LzmaDecoder.Decoder.Symbol | bios/seabios/src/lzmadecode.c:170-380 | computes Lzma.Symbol on the output written so far, which it leaves alone |
| LzmaDecoder.Decoder.CopyMatch | bios/seabios/src/lzmadecode.c:383-389 | the copy loop writes what the match stands for, cut off at outSize, and nothing after it |
| LzmaDecoder.Decoder.Run | bios/seabios/src/lzmadecode.c:168-397 | the main loop terminates with the result of Decode, its output in the buffer and every later byte unchanged |
| LzmaDecoder.LzmaDecode | bios/seabios/src/lzmadecode.c:135-398 | for every input succeeds exactly when DecodeAll does, with that output, that many bytes read, nothing written after the output, and nothing past outSize on failure either |
| LzmaDecoder.OutputIsReplay | bios/seabios/src/lzmadecode.c:135-398 | that output is the replay of the decoded symbols with every distance within the bytes written before, and fills outSize unless the last symbol is the end marker |
| LzmaDecoder.OnlyProcessed | bios/seabios/src/lzmadecode.c:31-42 | the result depends on no byte beyond those reported as processed |
| LzmaDecoder.SmallerBuffer | bios/seabios/src/lzmadecode.c:168-392 | a smaller output buffer receives the first bytes of the same output, successfully |
| LzmaRoundTrip.NarrowedPlays | bios/seabios/src/lzmadecode.c:42-52 | range coding round trip: every number in the interval that a list of decisions leads to is decoded to exactly those decisions |
| LzmaRoundTrip.TreeOf | bios/seabios/src/lzmadecode.c:54-57 | the decisions on the path to a leaf are decoded to that leaf |
| LzmaRoundTrip.MatchedOf | bios/seabios/src/lzmadecode.c:188-207 | the decisions of a literal after a match are decoded to its byte, wherever it first differs from the byte at distance rep0 |
| LzmaRoundTrip.LengthOf | bios/seabios/src/lzmadecode.c:287-318 | the decisions of each length from 0 to 271 are decoded to it |
| LzmaRoundTrip.DistanceOf | bios/seabios/src/lzmadecode.c:322-370 | the decisions of each 32-bit distance, by slot, direct and aligned bits, are decoded to it |
| LzmaRoundTrip.SymbolOf | bios/seabios/src/lzmadecode.c:170-380 | the decisions of each valid symbol are decoded to it, with the state and the last four distances it calls for |
| LzmaRoundTrip.DecodeOf | bios/seabios/src/lzmadecode.c:168-392 | the main loop decodes a stream to its symbols |
| LzmaRoundTrip.AnyNumberInside | bios/seabios/src/lzmadecode.c:135-398 | every input whose number lies in a stream's final interval is decoded to that stream's symbols |
| LzmaRoundTrip.RoundTrip | bios/seabios/src/lzmadecode.c:135-398 | decoding undoes encoding: for all properties every valid sequence of symbols comes back, with the bytes it stands for |
| LzmaRoundTrip.EveryOutput | bios/seabios/src/lzmadecode.c:135-398 | for all properties every byte sequence is the output of some input |
| Threads.YieldLinked | bios/seabios/src/stacks.c:148-186 | the ring with its back pointers is well-formed from the next thread's point of view too |
| Threads.SpawnLinked | bios/seabios/src/stacks.c:211-215 | the four pointer writes of run_thread put the new thread between the running one and its predecessor |
| Threads.ExitLinked | bios/seabios/src/stacks.c:188-196 | the two pointer writes of __end_thread take the ended thread out of the ring |
| Threads.AloneIff | bios/seabios/src/stacks.c:243-252 | the main thread is its own successor if and only if it is alone |
| Threads.ThreadList.constructor | bios/seabios/src/stacks.c:130-137 | the main thread alone in a well-formed ring |
| Threads.ThreadList.Spawn | bios/seabios/src/stacks.c:198-241 | the new thread runs at once and everybody else keeps the order |
| Threads.ThreadList.Yield | bios/seabios/src/stacks.c:148-186 | the running thread goes to the end of the order |
| Threads.ThreadList.Exit | bios/seabios/src/stacks.c:188-233 | the ended thread leaves the order and the next one runs |
| Threads.ThreadList.MainIsAlone | bios/seabios/src/stacks.c:243-252 | the loop of wait_threads ends exactly when the main thread is the only one |
| Threads.EveryoneHasATurn | bios/seabios/src/stacks.c:148-186 | in any run of spawns, yields and exits a thread that yields does not run again before every other surviving thread has had a turn |
| Threads.NobodyHasATurn | bios/seabios/src/stacks.c:198-241 | in any run, until a thread that started another one runs again, none of the threads there were has a turn |
| Threads.TurnIffYield | bios/seabios/src/stacks.c:148-241 | in any run, between two turns of a thread another one has a turn if and only if the first of the two ended with a yield |
| Threads.StarterComesBack | bios/seabios/src/stacks.c:198-241 | a concrete run in which a thread that started another one runs again before a third has had a turn |
| UsbProofs.ZeroMeansIdle | bios/seabios/src/usb.c:414-416 | hub->threads is zero only when no task of the hub is left |
| UsbProofs.StepInv | bios/seabios/src/usb.c:245-417 | every step of every thread keeps the invariants of ring, tasks, hubs, counters, lock and addresses |
| UsbProofs.AddressesDistinct | bios/seabios/src/usb.c:245-298 | in every run the addresses assigned are distinct and in 1..127, and each is the one its device was told |
| UsbProofs.OneAtAddressZero | bios/seabios/src/usb.c:372-398 | at most one task of the whole hub tree is between its port's reset and the end of set-address |
| UsbProofs.OwnPort | bios/seabios/src/usb.c:359-363 | each task has its own port number although all tasks read the one field hub->port |
| UsbProofs.OneTaskPerPort | bios/seabios/src/usb.c:401-413 | when usb_enumerate returns, its tasks have read the ports 0 to portcount - 1, each exactly once |
| UsbProofs.EnumerateWaitsForAll | bios/seabios/src/usb.c:401-417 | usb_enumerate returns only when every port has been launched and no task of the hub or of any hub below it is left |
| UsbProofs.NeverTouchedAgain | bios/seabios/src/usb.c:388-417 | once usb_enumerate has returned, no task on the hub exists and no field of it changes in any later state |

## Left out

- Node memory of the lock-free queue: identities are never reused. dequeue frees the old dummy node (main/ms-queue.c:211) while stale readers may still look at it, and a reused node would not keep its tag.
- Tags and machine memory: tags are unbounded and memory is sequentially consistent.
- Signal masks of the lock-free queue (main/ms-queue.c:144-145, 176, 191-192, 213): the empty path returns before its restore call, so nothing is claimed about masks.
- MsQueueCount.SizeIs: holds for sizes that fit a signed 64-bit word; with 2^63 threads between link and count it would not.
- Threshold races: the test and update in coremu_send_signal is one step, and so is adjust_intr_threshold.
- Interrupts before coremu_init_done_p, and unregistered event handlers or notifiers: the model starts after both.
- Core states HALT and PAUSE: whether a sender signals a core for its state is an open choice of the label, which covers every state.
- Pausing and restarting cores (main/core.c), scheduling priorities and timers.
- PMM requests of size 0, which alias the block below, and memory of others after the EBDA (bios/seabios/src/pmm.c:93-97), which breaks the chain by design.
- PmmRuns.RunKeeps: for requests that handle_pmm00 lets through (a positive s32 size, an alignment up to 2^30). A run with a wrapping ZoneLow request is covered only by RunExact and MallocBreaks, up to the first such request.
- PmmAlloc.HighestFit: ALIGN_DOWN is the multiple of the alignment below, which is what the bit mask computes for powers of two.
- Waiting for option ROMs in zonelow_expand (bios/seabios/src/pmm.c:78-88), the copy of the EBDA's bytes, and malloc_finalize.
- PmmManager.SetupGood: for tables in the F segment and memory that find_high_area may return.
- E820Map.MemMap.Add: the result is specified when start + size fits a 64-bit word; beyond that the end wraps below the start and only the array bounds are kept.
- The range coder's claim that Code stays below Range, which malformed input breaks in the direct-bit loop (bios/seabios/src/lzmadecode.c:340-351).
- Compression: the reference encoder takes the symbols as given and does not search for matches.
- Interrupts, preemption and stack switching in stacks.c: a switch is one step, and a thread has a stack that no live thread uses.
- One USB controller: other controllers' threads appear only as threads that run, yield, start others and end.
- USB transfers, hub port status, configuration and drivers: their answers are part of the labels, and a task may yield at any point except before it has read its port.
- Termination of enumeration, which depends on the devices.
- Device drivers, BIOS tables, option ROMs, the boot menu, libtopology, sched.c, timer.c and the utilities.
