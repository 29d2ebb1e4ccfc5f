# Models of the Zend engine's memory manager and of five smaller cores, with proofs

The main subject is the request allocator of `Zend/zend_alloc.c`: a ring of 2 MB chunks with a page
bitmap each, free lists for thirty slot sizes, a list of huge blocks, a cache of spare chunks, in-place
reallocation, and a collector for small runs whose slots are all free. `Heap.dfy` holds the heap as a
class whose methods follow the allocator's functions step by step; addresses are integers, chunk headers
and words of memory are maps that the methods update, and ghost fields say what the pointer structures
mean. `Theorems.dfy` states what holds in every state those methods can leave behind, `Runs.dfy` shows
that a program on separate arrays cannot tell the heap from the arrays until memory runs out, and
`Scenarios.dfy` holds short programs that reach the extreme states the theorems allow.

The other cores, each in a file of its own: arenas with checkpoints (`Arena.dfy`), the exporter of
syntax trees with its string escapers and the growable child list (`AstPrinter.dfy`, `AstText.dfy`,
`AstList.dfy`), the resource manager for coroutines (`Tsrm.dfy`, `TsrmRuns.dfy`), module ordering and
startup (`Modules.dfy`), variadic argument parsing (`VaArgs.dfy`), and the bit sets of `Zend/zend_bitset.h`
(`Bitset.dfy`).

How the allocator's proof is layered, bottom up:

- words and their tricks: `Words`, `WordCounts`, then the bitmap as an array of words (`PageMap`) and the
  shifting search on it (`PageSearch`), both proved against a row of booleans (`PageBits`);
- sizes, bins and info words: `Sizes`, `InfoWords`;
- one chunk: `Chunks` (bitmap, info words, free_pages, free_tail), `Rings` (links of chunks);
- all chunks: `Blocks` (which run an address lies in), `Ledger` (each slot is handed out or free),
  `Memory` (links and contents in memory words), `Regions` (what the system has mapped);
- the collector: `Collector`, `Sweep`, `SweepRuns`; no empty chunk stays linked: `Occupancy`;
- steps of the heap as facts on values: `Steps`, `Slots`, `Safety`, `HugeBlocks`, `InPlace`;
- what allocation draws on, what a collection makes of it, and the memory limit: `Limits`.

The configuration is 64-bit words, `ZEND_DEBUG` 0, `ZEND_MM_STAT` and `ZEND_MM_LIMIT` on, no custom heap and
no custom storage, system pages of 4096 bytes. The operating system is an oracle: it maps a fresh, aligned
region whose chunk header is zero, or refuses; it extends or cuts a mapping in place, or refuses.

What the code decides, and the contracts therefore say:

- A chunk whose last run is freed is deleted, the main chunk included (`Zend/zend_alloc.c:1120`);
  `Theorems.EmptiedExactly` says when that happens, and `Theorems.FirstFreeEmptiesMain` gives the shortest
  run that does it to the main chunk. The collector does the same (`Zend/zend_alloc.c:1959`): with no live
  block in the main chunk it empties it if and only if no run of bin 0 lies there (`Theorems.CollectedMain`),
  and `Scenarios.IdleMain` is such a heap for every bin. The heap's methods therefore ask that a block of
  the user stays in the main chunk, or that nothing was handed out of it yet; in `Runs.Run` this is array 0.
- `free_tail` is an upper bound only: growing in place does not move it. `Theorems.TailIsBound` is what
  remains true, and it is enough for the search's early stop and for the collector.
- The collector's counter has nine bits and bin 0 has 512 slots, so runs of bin 0 are never collected
  (`Collector.CounterFits`, `InfoWords.CounterWraps`).
- A huge block is checked against the limit before its list node is allocated. real_size gets above the
  limit in no other way than this: the node's free list is empty, no chunk has a run for it and no chunk is
  cached, so that the node takes a fresh chunk (`Limits.NeedsChunk`). That is said of the heap as the request
  found it or of what a collection makes of it (`Limits.Collected`): the runs that can go are free pages, all
  others stay, their slots are off the lists, emptied chunks are gone. The excess is one chunk at most, and
  `Scenarios.AboveLimit` reaches it.
- The comment with the operator table puts `!` at 220, but the exporter prints it at 240 like the other
  prefix operators. The parser of the model follows the comment; no operand is ever printed at a priority
  between the two, so the round trip holds all the same.
- `zend_sort_modules` never ends when unstarted modules depend on each other in a circle. `Modules.SortEnds`
  states that it ends in exactly the other cases, and `Modules.TwoWayNeverEnds` names the smallest circle; the
  methods that sort ask for a case that ends.
- A module counts as started while its own requirements are checked, so a module that requires itself starts.
- The count of a specifier string accepts calls that the second pass cannot parse. `VaArgs.Clear` says which
  calls are safe from that: no argument may reach the retired letter `Z`, a modifier that follows no
  parameter, a bar directly behind a bar, or a bar directly behind a marker that takes no argument. With all
  arguments converting, a call the count accepts succeeds if and only if it is clear. `l||l` fails with two
  arguments and works with one; `*|l` fails with one and works with two.

## Model

| member | source | states |
|---|---|---|
| `WordCounts.Nts` | Zend/zend_alloc.c:506-542 | the halving search counts exactly the row of ones at the low end of a word, 64 for the all-ones word |
| `WordCounts.Ntz` | Zend/zend_bitset.h:43-78 | the halving search counts exactly the row of zeros at the low end, 64 for zero |
| `Words.StripOnes` | Zend/zend_alloc.c:935 | t & (t + 1) clears the low row of ones and no other bit |
| `Words.FillZeros` | Zend/zend_alloc.c:968 | the bitwise or of t and t - 1 sets the low row of zeros and no other bit |
| `PageMap.IsSet` | Zend/zend_alloc.c:588-591 | the test tells whether the number is a member of the map |
| `PageMap.SetBit` | Zend/zend_alloc.c:593-596 | exactly one member is added |
| `PageMap.ResetBit` | Zend/zend_alloc.c:598-601 | exactly one member is removed |
| `PageMap.SetRange` | Zend/zend_alloc.c:603-633 | for every non-empty range inside the map, across any number of words: the result is the union with the range |
| `PageMap.ResetRange` | Zend/zend_alloc.c:635-665 | the result is the difference from the range |
| `PageMap.IsFreeRange` | Zend/zend_alloc.c:667-701 | true exactly when no member lies in the range |
| `PageSearch.SkipAllocated` | Zend/zend_alloc.c:919-935 | the scan stops at the first clear bit at or above where it stands, or finds that there is none |
| `PageSearch.SkipFreeBlocks` | Zend/zend_alloc.c:936-957 | the scan stops at the first set bit behind a free page, or at the end of the map, which the hint free_tail lets it assume early |
| `PageSearch.BestFitSearch` | Zend/zend_alloc.c:910-970 | the shifting word search of one chunk returns what the search over a row of pages returns, the page and the new free_tail |
| `PageBits.SearchIsBestFit` | Zend/zend_alloc.c:910-970 | that page is the start of the shortest maximal free run that is long enough, the lowest on ties; there is none exactly when no n free pages lie together |
| `PageBits.SearchKeepsTail` | Zend/zend_alloc.c:939-953 | a new free_tail is only written when nothing at or above it is taken, and the run found ends at or below it |
| `PageBits.OnlyRun` | Zend/zend_alloc.c:957-966 | maximal free runs do not overlap, so 'the shortest, then the lowest' names one run |
| `Sizes.BinFacts` | Zend/zend_alloc_sizes.h:32-62 | in every bin the slots fit the pages and can hold a link, and only bin 0 has 512 of them |
| `Sizes.RunShape` | Zend/zend_alloc_sizes.h:32-62 | in every bin a run holds as many slots as fit, at least eight but for the largest, and wastes a fortieth at most; the odd factor of the slot size gives the pages of a run |
| `Sizes.SizeLaw` | Zend/zend_alloc_sizes.h:32-62 | slot sizes grow by 8 up to 64, then in four equal steps between powers of two, and end at the largest small size |
| `Sizes.SmallSizeToBit` | Zend/zend_alloc.c:1143-1168 | the halving search finds the position of the highest set bit |
| `Sizes.SmallSizeToBin` | Zend/zend_alloc.c:1174-1194 | shifts and subtraction compute the bin that the size classes define |
| `Sizes.BinIsLeast` | Zend/zend_alloc.c:1174-1200 | the bin chosen for a size is the least one whose slots are large enough |
| `Sizes.OffsetInRun` | Zend/zend_alloc.c:1233-1248 | every slot lies inside its run and is aligned to 8 |
| `Sizes.OffsetsApart` | Zend/zend_alloc.c:1233-1248 | two slots of a run do not overlap |
| `InfoWords.PackedReads` | Zend/zend_alloc.c:161-187 | reading a 32-bit word gives back kind, bin, length, counter and offset of any word put together from those fields, counter and offset modulo 512 |
| `InfoWords.InfoRoundTrip` | Zend/zend_alloc.c:161-187 | an info written and read again is the same, for all infos whose fields fit |
| `InfoWords.CounterWraps` | Zend/zend_alloc.c:1893-1897 | a count of 512 reads back as 0, every smaller one as itself |
| `InfoWords.RunsFit` | Zend/zend_alloc.c:1221-1231 | every run the allocator can make has an info that fits its word |
| `InfoWords.WordLayout` | Zend/zend_alloc.c:161-187 | the two flags are bits 31 and 30, counter or offset stand from bit 16, bin or length from bit 0 |
| `Chunks.InitTableOk` | Zend/zend_alloc.c:813-828 | a new or cached chunk whose bitmap is written in its first word only becomes a table with every page but the header free |
| `Chunks.CarveOk` | Zend/zend_alloc.c:1047-1055 | taking a run keeps bitmap, info words, free_pages and free_tail in agreement with the runs there are |
| `Chunks.ReleaseOk` | Zend/zend_alloc.c:1111-1119 | so does freeing a run, which lowers free_tail only when the run ends there |
| `Chunks.ShrinkOk` | Zend/zend_alloc.c:1560-1570 | so does cutting the tail off a large run in place |
| `Chunks.GrowOk` | Zend/zend_alloc.c:1581-1597 | so does extending a large run in place, though free_tail does not move |
| `Chunks.MarkSmallOk` | Zend/zend_alloc.c:1221-1231 | so does turning a fresh run into a run of slots |
| `Chunks.EmptyTable` | Zend/zend_alloc.c:1120-1122 | free_pages is 511 exactly when every page but the header is free, and then the bitmap is a fresh one |
| `Chunks.TailMoved` | Zend/zend_alloc.c:939-946 | moving free_tail down over free pages keeps the table sound |
| `Chunks.TailFollows` | Zend/zend_alloc.c:1051-1119 | free_tail follows a run that is taken or freed right at it, and does not move otherwise, nor when a run is cut or extended |
| `Rings.LinkLastOk` | Zend/zend_alloc.c:816-819 | linking in front of the main chunk keeps the doubly linked ring, with the chunk last |
| `Rings.UnlinkOk` | Zend/zend_alloc.c:1078-1079 | unlinking any chunk but the main one leaves the ring of the others in order |
| `Rings.MoveToFrontOk` | Zend/zend_alloc.c:1037-1046 | moving a chunk behind the main chunk keeps the ring and its members |
| `Blocks.RunSpan` | Zend/zend_alloc.c:1047-1055 | every address of a run sees that run, which lies in one chunk past the header |
| `Blocks.InfoAt` | Zend/zend_alloc.c:1879-1892 | the info word an address finds through its page leads to the run it lies in, also from its inner pages |
| `ZendHeap.Heap.constructor` | Zend/zend_alloc.c:1804-1852 | a new heap is valid, with one chunk, nothing handed out and real_size one chunk |
| `ZendHeap.Heap.InitChunk` | Zend/zend_alloc.c:813-828 | a mapped or cached chunk joins the ring at its end with the number behind that of the last chunk, all other runs stay |
| `ZendHeap.Heap.DeleteChunk` | Zend/zend_alloc.c:1076-1109 | an empty chunk other than the main one leaves the ring and goes into the cache, or else it or the first cached chunk, whichever is younger, goes back to the system; counts, real_size and all runs agree |
| `Steps.SearchChunk` | Zend/zend_alloc.c:858-970 | on a linked chunk: the run found is best fit and may be carved; a chunk skipped for having too few free pages has no fitting run |
| `ZendHeap.Heap.SearchRing` | Zend/zend_alloc.c:854-974 | the chunk taken is the first in ring order with a fitting run, and in it the best fit; failure means no chunk has one |
| `ZendHeap.Heap.FindPages` | Zend/zend_alloc.c:849-1046 | a new chunk is asked for exactly when no chunk of the ring has a fitting run; a chunk found more than two steps on moves behind the main chunk if the run is shorter than 8 pages; no block and no contents of a block change; real_size grows only when no run fits and no chunk was cached, by one chunk, within the limit; memory is exhausted only then, and because the system refused or the limit as collections left it has no room for a chunk, with nothing left to collect |
| `ZendHeap.Heap.CheckLimit` | Zend/zend_alloc.c:974-993 | a chunk is mapped only below the limit or with the overflow flag, after a collection if need be; a refusal means that real_size as the collections left it and one chunk exceed the limit without that flag and nothing is left to collect; a cached chunk is always taken; the retries end |
| `ZendHeap.Heap.SetLimit` | Zend/zend_alloc.c:2572-2578 | a limit below one chunk becomes one chunk; the heap stays valid |
| `ZendHeap.Heap.MapChunkOrCollect` | Zend/zend_alloc.c:994-1010 | when the system refuses a chunk the collector is tried, and if that released anything the system is asked again; nothing is lost in that; failure means that the system refused and nothing is left to collect |
| `ZendHeap.Heap.MoveToFront` | Zend/zend_alloc.c:1037-1046 | the chunk is second in the ring now, the others keep their order |
| `Steps.FarMoves` | Zend/zend_alloc.c:1037-1046 | a run of up to 7 pages found in the fourth chunk of the ring or further on brings its chunk right behind the main one, any other find leaves the ring as it is |
| `ZendHeap.Heap.AllocPages` | Zend/zend_alloc.c:849-1055 | a run of n pages that was no block before becomes one, best fit in the first chunk that has room, and nothing else becomes or stops being a block; no linked chunk is left empty; a heap with nothing handed out always serves it |
| `ZendHeap.Heap.AllocSmallSlow` | Zend/zend_alloc.c:1204-1258 | a fresh run is cut so that the first slot is handed out and the free list holds exactly the other slots, in ascending order of address |
| `ZendHeap.Heap.AllocSmall` | Zend/zend_alloc.c:1260-1278 | the first free slot is handed out, or a fresh run cut; size grows by the slot and peak is its maximum; real_size grows only if the free list was empty, no run fits and no chunk was cached |
| `ZendHeap.Heap.AllocLarge` | Zend/zend_alloc.c:1057-1070 | a run of pages is handed out and counted in size and peak |
| `ZendHeap.Heap.AllocHuge` | Zend/zend_alloc.c:1717-1783 | a huge block is mapped within the limit and entered in the list; real_size ends above the limit only if its node needed a fresh chunk, in the heap as the request found it or, if the limit or the system pressed, as a collection of that heap left it; on failure no block appears and real_size does not grow, and the system refused or the limit has no room, with nothing left to collect |
| `ZendHeap.Heap.AddHuge` | Zend/zend_alloc.c:1638-1655 | a fresh list node describes the block; the node is itself an accounted block; real_size grows only if the node's free list was empty, no run for it fits and no chunk was cached |
| `ZendHeap.Heap.EnterHuge` | Zend/zend_alloc.c:1717-1783 | real_size ends above the limit, and then by one chunk, only if the node could come from nothing but a fresh chunk; on failure the block is not entered |
| `HugeBlocks.HugeBooked` | Zend/zend_alloc.c:1638-1655 | what a huge block and its node add to the sums of blocks and of huge sizes |
| `HugeBlocks.BlockForFits` | Zend/zend_alloc.c:1328-1371 | a request gets at least what it asks for: the least bin, else whole pages with less than a page to spare |
| `HugeBlocks.BlockKinds` | Zend/zend_alloc.c:1328-1371 | requests up to the largest slot are small, those whose pages fit behind the header of a chunk large, the others huge |
| `ZendHeap.Heap.AllocHeap` | Zend/zend_alloc.c:1328-1371 | any request yields a block no one had, of the size class of the request, keeps every other block and its contents and keeps the heap valid; a small or large request fails, and real_size grows for it, only with no fitting run and no cached chunk; no request fails unless the system refused or the limit has no room, and nothing is left to collect; a new heap serves every small or large request; real_size stays within the limit unless the node of a huge block needed a fresh chunk, in the heap as found or as a collection of it left it; the peaks are the old ones or what is in use afterwards |
| `Limits.CollectedTwice` | Zend/zend_alloc.c:1858-1970 | what a collection makes of the free lists, page tables and ring is settled: a second collection of the result gives what one collection of the original gives |
| `Scenarios.Exceed` | Zend/zend_alloc.c:1717-1783 | in every valid heap whose one block of the user fills the main chunk, with room below the limit for a huge block of 4 MB: serving it takes real_size one chunk above the limit, and the node needed a fresh chunk in the heap before the request or in a collection of it |
| `Scenarios.AboveLimit` | Zend/zend_alloc.c:1717-1783 | a new heap, a large block that fills the main chunk and a huge block: unless the system refuses, real_size is the limit plus one chunk |
| `ZendHeap.Heap.FreePages` | Zend/zend_alloc.c:1111-1128 | the pages of the run are free, an emptied chunk goes, and no other run changes |
| `ZendHeap.Heap.FreeSmall` | Zend/zend_alloc.c:1280-1298 | the slot is the first of its free list now, all other lists and all blocks' contents stay |
| `ZendHeap.Heap.FreeLarge` | Zend/zend_alloc.c:1130-1137 | exactly the block goes, size falls by its length |
| `HugeBlocks.InfoTells` | Zend/zend_alloc.c:1382-1394 | the info word of the page a block starts in tells which kind of block it is, and only huge blocks start a chunk |
| `ZendHeap.Heap.InfoOf` | Zend/zend_alloc.c:1382-1387 | from the address alone the kind, bin or length of any small or large block is recovered |
| `ZendHeap.Heap.DelHuge` | Zend/zend_alloc.c:1657-1679 | the entry goes wherever it stands in the list, its node is freed, and the size recorded at allocation comes back |
| `ZendHeap.Heap.FreeHuge` | Zend/zend_alloc.c:1785-1798 | the block, its node and its mapping go and nothing else |
| `ZendHeap.Heap.FreeHeap` | Zend/zend_alloc.c:1373-1396 | freeing by address alone takes exactly that block off the books, whatever its kind, and keeps the contents of the others; freeing null does nothing |
| `ZendHeap.Heap.FreeThenAlloc` | Zend/zend_alloc.c:1260-1298 | freeing a small block and asking for its size again returns the same block, also when nothing else is in use |
| `ZendHeap.Heap.HugeBlockSize` | Zend/zend_alloc.c:1681-1693 | the list has the size of every huge block and of nothing else |
| `ZendHeap.Heap.SizeOf` | Zend/zend_alloc.c:1398-1424 | the size found from the address alone is that of the block's class, for all three kinds |
| `Collector.CounterFits` | Zend/zend_alloc.c:1893-1897 | a 9-bit counter reaches the number of slots exactly when all are counted and the bin is not bin 0 |
| `Collector.CountFull` | Zend/zend_alloc.c:1875-1899 | the slots of a run on the free list number as many as the run has slots exactly when all its slots are free |
| `Collector.AllFreeCondemned` | Zend/zend_alloc.c:1893-1922 | every run of a bin other than 0 whose slots are all free is found |
| `ZendHeap.Heap.CountBin` | Zend/zend_alloc.c:1875-1899 | after one walk over the free list each counter is the tally of its run, modulo 512 |
| `Collector.Condemn` | Zend/zend_alloc.c:1905-1930 | taking the slots of condemned runs off the list leaves every other slot where it was |
| `ZendHeap.Heap.UnlinkBin` | Zend/zend_alloc.c:1905-1930 | the linked list loses exactly those slots, in place, and no block's contents change |
| `ZendHeap.Heap.SweepRing` | Zend/zend_alloc.c:1933-1967 | condemned runs and only those become free pages, every counter is zero again, emptied chunks go and no others, and the result counts the pages |
| `SweepRuns.NothingLeft` | Zend/zend_alloc.c:1858-1970 | after a collection no run is left that could be collected |
| `ZendHeap.Heap.Gc` | Zend/zend_alloc.c:1858-1970 | no block is lost or changed; a small run goes if and only if its bin is not 0 and all its slots are free; each list is the old one without the slots of those runs; no linked chunk but the main one is left empty; the result is 4096 times the pages freed, 0 exactly when no run goes, real_size stays then, and a second collection returns 0 |
| `InPlace.SameBin` | Zend/zend_alloc.c:1528-1544 | a small block stays exactly when the new size belongs to the same bin |
| `ZendHeap.Heap.ResizeLarge` | Zend/zend_alloc.c:1545-1609 | a large block takes another large size in place: always when it does not grow, else exactly when the pages behind it are inside the chunk and free |
| `ZendHeap.Heap.ReallocHuge` | Zend/zend_alloc.c:1437-1516 | a huge block is cut or extended where it is, within the limit; it is refused only when the increment does not fit the limit as a collection left it, and nothing changes then |
| `ZendHeap.Heap.ReallocInPlace` | Zend/zend_alloc.c:1437-1614 | in place only the one block changes its size, and no contents change; a large block asked to become another large size does so in place if and only if it does not grow or the pages behind it are inside the chunk and free; the peaks grow with what is in use |
| `ZendHeap.Heap.CopyBlock` | Zend/zend_alloc.c:1623 | the bytes copied are the old ones and no other block changes |
| `ZendHeap.Heap.MoveBlock` | Zend/zend_alloc.c:1616-1630 | allocate, copy, free: the new block has the first bytes, the old block is gone, the others are as before; the peaks do not keep the moment when both were there |
| `ZendHeap.Heap.Realloc` | Zend/zend_alloc.c:1426-1631 | on every path the result is a block of the size class of the request, its first min(old size, copy size) bytes are the old ones, and every other block and its contents stay; on failure the old block is untouched, and the system refused or the limit has no room, with nothing left to collect; for a huge block, if the system refused nothing, it is the increment that has no room; the bound on real_size is that of an allocation; a large block asked to become another large size stays where it is if and only if it does not grow or the pages behind it are inside the chunk and free; a huge block stays unless the system did not change its mapping; the peaks are the old ones or what is in use afterwards |
| `Theorems.NoOverlap` | Zend/zend_alloc.c:1328-1371 | no address lies in two blocks, whatever their kinds |
| `Theorems.OffTheHeader` | Zend/zend_alloc.c:1023-1055 | small and large blocks never touch a header page, and no free slot is inside a block; HugeOffChunks says the same of huge blocks |
| `Theorems.HugeOffChunks` | Zend/zend_alloc.c:1717-1783 | no address of a huge block lies in a linked or cached chunk, header page included |
| `Theorems.BitmapExact` | Zend/zend_alloc.c:1047-1055 | a page's bit is set exactly when it is the header or lies in a run, and the run covers it |
| `Theorems.FreePagesExact` | Zend/zend_alloc.c:1048 | free_pages is the number of clear bits of the chunk's bitmap |
| `Theorems.TailIsBound` | Zend/zend_alloc.c:1051-1053 | whatever is taken at or above free_tail belongs to one large run that starts below it |
| `Theorems.SlotsPartition` | Zend/zend_alloc.c:1204-1298 | each slot of each run of a bin is either handed out or on the free list, never both, and the list has no duplicate |
| `Theorems.ListsAreChains` | Zend/zend_alloc.c:1280-1298 | the links stored in the free slots lead through exactly that list and end |
| `Theorems.Conservation` | Zend/zend_alloc.c:1011-1020 | size is the sum of the sizes of all blocks, list nodes included; real_size is 2 MB times linked and cached chunks plus the huge sizes; peaks bound both; every mapping is one of those |
| `Theorems.NoneIdle` | Zend/zend_alloc.c:1120-1122 | every linked chunk but the main one has a run, so an emptied chunk is never kept in the ring |
| `Theorems.EmptiedExactly` | Zend/zend_alloc.c:1120-1122 | freeing a run empties its chunk exactly when no other page but the header is taken, the main chunk included |
| `Theorems.FirstFreeEmptiesMain` | Zend/zend_alloc.c:1120-1122 | allocating any run from a new heap and freeing it empties the main chunk, which the code then deletes |
| `Theorems.CollectedMain` | Zend/zend_alloc.c:1933-1967 | in a valid heap whose main chunk holds no live block, releasing what a collection releases empties the main chunk if and only if no run of bin 0 lies in it |
| `Scenarios.IdleMain` | Zend/zend_alloc.c:1933-1967 | such a heap for every bin: a small block allocated first and freed again; the main chunk has a run of bin 0 if and only if the bin is 0 |
| `Runs.MatchResize` | Zend/zend_alloc.c:1426-1631 | what reallocation promises is enough: the arrays of the program, one of them resized and cut to the common length, are again what the blocks hold |
| `Runs.Execute` | Zend/zend_alloc.c:1328-1631 | one step of a program on separate arrays is matched by the heap; running out of memory loses nothing, and means that the system refused or the limit has no room; real_size before and after obey the limit as in an allocation, and no array but the resized one moves |
| `Runs.Run` | Zend/zend_alloc.c:1804-1970 | over every program of allocations, frees, resizes, stores and collections from a new heap there is a history from that heap to the heap as it is left: at each of its moments the books of the heap are in order and its blocks hold exactly the arrays the program has by then; consecutive moments are related as one step demands; the run ends early only when in its last step the system refused or the limit had no room, and nothing was left to collect; real_size ends above the limit, by one chunk at most, only if some huge request of the history had a node that needed a fresh chunk |
| `Runs.ChainExcused` | Zend/zend_alloc.c:974-1783 | over every chain of steps real_size ends within the limit, or within one chunk of it and some node needed a fresh chunk |
| `Runs.NoneHuge` | Zend/zend_alloc.c:974-993 | a chain of steps none of which is a huge request ends within the limit |
| `Bitset.Union` | Zend/zend_bitset.h:142-149 | the members are the union |
| `Bitset.Intersection` | Zend/zend_bitset.h:133-140 | the members are the intersection |
| `Bitset.Difference` | Zend/zend_bitset.h:151-158 | the members are the difference |
| `Bitset.UnionWithIntersection` | Zend/zend_bitset.h:160-167 | the members are the second set and the intersection of the third and fourth; words past the length stay |
| `Bitset.UnionWithDifference` | Zend/zend_bitset.h:169-176 | the members are the second set and the difference of the third and fourth; words past the length stay |
| `Bitset.Empty` | Zend/zend_bitset.h:107-116 | true exactly for the empty set |
| `Bitset.Subset` | Zend/zend_bitset.h:178-188 | true exactly for subsets |
| `Bitset.First` | Zend/zend_bitset.h:190-200 | the least member, -1 for the empty set |
| `Bitset.Last` | Zend/zend_bitset.h:202-219 | the greatest member, -1 for the empty set |
| `Bitset.ForEach` | Zend/zend_bitset.h:221-229 | every member is met once, in ascending order, and nothing else |
| `Bitset.ReverseForEach` | Zend/zend_bitset.h:231-246 | every member is met once, in descending order, and nothing else |
| `Arenas.Arena.constructor` | Zend/zend_arena.h:34-42 | a new arena is valid and has handed out nothing |
| `Arenas.AlignedToEight` | Zend/zend_arena.h:28-39 | sizes are rounded up to the next multiple of 8 and the header of an arena takes 24 bytes |
| `Arenas.Arena.Alloc` | Zend/zend_arena.h:55-79 | memory handed out is aligned, inside its arena and apart from all handed out before; a new arena is put in front only if the first has too little left, and is at least as large; it fails only when there is no block |
| `Arenas.FoundAt` | Zend/zend_arena.h:105-110 | the comparisons of addresses find the arena of a checkpoint and no arena put in front of it since |
| `Arenas.Restored` | Zend/zend_arena.h:101-113 | dropping the arenas in front and putting the pointer back gives the headers of the checkpoint |
| `Arenas.Arena.Checkpoint` | Zend/zend_arena.h:96-99 | the checkpoint is where the next allocation would go |
| `Arenas.Arena.Release` | Zend/zend_arena.h:101-113 | after any allocations and nested releases the state is exactly that of the checkpoint |
| `Arenas.Arena.Exec` | Zend/zend_arena.h:55-113 | for every program of allocations and nested scopes: leaving a scope restores its entry state, and what stays handed out is what was taken outside scopes; a program ends early only when there is no block |
| `Arenas.Arena.Destroy` | Zend/zend_arena.h:44-51 | every arena of the chain is freed |
| `AstPrinter.Buffer.Export` | Zend/zend_ast.c:1212-1680 | the recursive exporter appends the tokens of the printed form |
| `AstPrinter.PrintedLikeTable` | Zend/zend_ast.c:1343-1388 | the three priorities of each binary operator are those the documented table demands for its associativity |
| `AstPrinter.EdgeBeyond` | Zend/zend_ast.c:1667-1673 | a printed left operand ends before the operator it was printed for, however its own right edge looks |
| `AstPrinter.PrintedReads` | Zend/zend_ast.c:1212-1680 | in any context the parser reads exactly the printed expression and stops there |
| `AstPrinter.RoundTrip` | Zend/zend_ast.c:563-596 | a precedence-climbing parser built from the table recovers every expression tree from its tokens |
| `AstPrinter.ParensDemanded` | Zend/zend_ast.c:1212-1680 | as many parentheses are printed as there are operands that the documented table, with all prefix operators at 240, wants in parentheses |
| `AstPrinter.Unambiguous` | Zend/zend_ast.c:1212-1680 | two different trees never print the same |
| `AstText.Text.ExportStr` | Zend/zend_ast.c:600-613 | the bytes appended are the escaped form |
| `AstText.SingleRoundTrip` | Zend/zend_ast.c:600-613 | read by the rules of single-quoted strings, the literal is the original string for every byte string, and it ends at the closing quote |
| `AstText.SingleForm` | Zend/zend_ast.c:600-613 | a backslash is printed before a single quote and a backslash, and every other byte as itself |
| `AstText.Text.ExportQstr` | Zend/zend_ast.c:615-658 | the bytes appended are the escaped form |
| `AstText.QuotedRoundTrip` | Zend/zend_ast.c:615-658 | read by the rules of double-quoted or backtick strings, with octal escapes, the literal is the original string for every byte string |
| `AstText.QuotedForm` | Zend/zend_ast.c:615-658 | the six named control characters get their escapes of two bytes, the other control characters escapes of four, the quote, the dollar sign and the backslash a backslash, and every other byte is printed as itself |
| `AstLists.TrickTells` | Zend/zend_ast.c:177-179 | n == (n & (~n + 1)) tells exactly the powers of two among 32-bit words |
| `AstLists.RoomAtPower` | Zend/zend_ast.c:181-189 | growing only at lengths that are powers of two is enough and needed |
| `AstLists.AstList.constructor` | Zend/zend_ast.c:146-175 | the list holds the initial children |
| `AstLists.AstList.Add` | Zend/zend_ast.c:181-189 | the child is appended, the earlier ones stay, every write is inside the block, which doubles exactly at powers of two from 4 on |
| `AstLists.AstList.Rtrim` | Zend/zend_ast.h:270-276 | one missing child is taken off the end, and nothing else |
| `AstLists.Apply` | Zend/zend_ast.c:146-189 | over any run of additions and trims the list equals the abstract sequence |
| `Tsrm.Manager.IsNew` | TSRM/TSRM.c:56-82 | an address is reported new exactly once, and remembered |
| `Tsrm.HashRounds` | TSRM/TSRM.c:425-428 | thread numbers share the buckets in turn |
| `Tsrm.Manager.constructor` | TSRM/TSRM.c:170-214 | startup gives an empty, valid table |
| `Tsrm.Manager.AllocateId` | TSRM/TSRM.c:274-344 | a new address gets the next id with its type and every linked context a cell of its own, and if it has a constructor, exactly the new cells of the forced bucket, or of all buckets if none is forced, are constructed, once each, in the order of the chains; a known address keeps its id, and if its type has a constructor, the cell of the forced coroutine's first context is constructed again, and nothing else; no cell is replaced |
| `Tsrm.Manager.EnlargeBucket` | TSRM/TSRM.c:320-339 | every context of one chain gets the missing cell, the others are as before; if the id has a constructor and the bucket is the forced one or none is forced, exactly these cells are constructed, in the order of the chain |
| `Tsrm.Manager.AllocateNewResource` | TSRM/TSRM.c:347-384 | a new context has a cell for every id not freed, all of them its own; the constructors that run are exactly those of the ids that have one and are not freed, on its cells, in order of ids |
| `Tsrm.Manager.NewInterpreterContext` | TSRM/TSRM.c:503-518 | the new context is complete, the constructors of its ids have run on it, and the current context stays current |
| `Tsrm.Manager.CreateEntry` | TSRM/TSRM.c:521-526 | the coroutine is forced now, its fresh context stands alone in its bucket, exactly the constructors of the ids that have one and are not freed ran, on that context, in order of ids, and the current context is restored |
| `Tsrm.Manager.Lookup` | TSRM/TSRM.c:425-455 | the walk of the chain finds the thread's context, which changes nothing, or appends one to the end of its chain and finds that: the only new context, current now, with exactly the constructors of the ids that have one and are not freed run on it |
| `Tsrm.Manager.Resource` | TSRM/TSRM.c:388-455 | the cell returned belongs to the current context if there is one, which changes nothing, or else to the context of the thread asked for; if there was none, one is made as for a lookup and is current now |
| `Tsrm.Manager.FetchIs` | TSRM/TSRM.c:388-455 | the place answered for an id is the cell of that id in that context and of no other id or context, or null once the id is freed; id 0 is the storage itself |
| `Tsrm.Manager.CreateThenFetch` | TSRM/TSRM.c:388-526 | after the context of coroutine k is created, hashed lookup of k finds it |
| `Tsrm.Manager.FreeId` | TSRM/TSRM.c:628-666 | the id's cells go in every linked context, the destructor, if there is one, runs on exactly those cells, once each, in the order of the chains, all other cells stay |
| `TsrmRuns.Run` | TSRM/TSRM.c:170-526 | over every run of context creations and id allocations: ids are dense in order of first appearance, equal addresses get equal ids; a history leads from the manager after startup, with one context and no id, to the manager as it is left; each call keeps every cell and the current context and constructs on the forced coroutine's own context only: creation adds one fresh context and constructs all its ids there, allocation adds no context and constructs its id there; every context in the table has a cell for each id; each bucket holds at most the one context of its own coroutine, and exactly the created coroutines have one |
| `TsrmRuns.Find` | TSRM/TSRM.c:388-455 | in the state a run ends in, hashed lookup of a created coroutine k finds the context in table[k] and changes neither contexts nor table |
| `Modules.FirstDependency` | Zend/zend_API.c:1913-1929 | the two nested scans find the place of the first dependency, in the module's own order, that stands behind it: no dependency in front of that one names a module behind it; conflicts do not count |
| `Modules.FirstDepOnly` | Zend/zend_API.c:1913-1929 | there is one such place |
| `Modules.AfterSettled` | Zend/zend_API.c:1901-1934 | at every moment of the sort the order is a permutation whose prefix is settled |
| `Modules.FinishFrom` | Zend/zend_API.c:1909-1933 | without a cycle among modules still to be started the repeated swapping at one position comes to an end |
| `Modules.NeverFinishes` | Zend/zend_API.c:1909-1933 | with such a cycle the sort never ends |
| `Modules.SortEnds` | Zend/zend_API.c:1901-1934 | the sort ends if and only if the required and optional dependencies of modules still to be started have no cycle |
| `Modules.TwoWayNeverEnds` | Zend/zend_API.c:1909-1933 | two modules of different names that require each other: the sort never ends |
| `Modules.SortModules` | Zend/zend_API.c:1901-1934 | the in-place sort leaves a permutation in which no module still to be started precedes one it depends on, and it is the order that step by step results from swapping a module with its first dependency behind it |
| `Modules.LeftByOnly` | Zend/zend_API.c:1901-1934 | such a sequence of steps leaves one order only |
| `Modules.InOrderAsked` | Zend/zend_API.c:1912-1929 | a module that requires two others, registered in front of them, ends behind both, and they come in the order in which it asks for them |
| `Modules.CaseIsIgnored` | Zend/zend_API.c:1920 | names differ in the case of the letters A to Z only, or not at all |
| `Modules.Registry.IsStarted` | Zend/zend_API.c:1847-1851 | the lookup by lower-cased name succeeds exactly for a registered module that has started |
| `Modules.Registry.StartupModule` | Zend/zend_API.c:1829-1884 | a module starts exactly when every module it requires has started, and its start-up code runs once |
| `Modules.StartedExactly` | Zend/zend_API.c:2005-2020 | after the pass a module runs exactly when no chain of requirements leads from it to a name nobody registered |
| `Modules.CallsOrdered` | Zend/zend_API.c:1864-1882 | no start-up call precedes that of a module its own module needs, and none is repeated |
| `Modules.Registry.StartupModules` | Zend/zend_API.c:2005-2020 | sort and pass together: exactly the modules whose transitive requirements are registered have started, the others are dropped, the table is in the order the sort leaves, and the calls came in that order, which respects dependencies |
| `VaArgs.CountSpec` | Zend/zend_API.c:816-861 | the loop applies the one-character counting rule to every character in turn, and stops without a result at an unknown character or a second marker |
| `VaArgs.OneCharacter` | Zend/zend_API.c:816-861 | which one-character strings can be counted, which of them count as an argument, and which letters can be parsed |
| `VaArgs.CountsMean` | Zend/zend_API.c:816-871 | for every well-spelled string the numbers counted are those of the pieces before the last bar, of all parameters, and behind the marker |
| `VaArgs.PiecesSpell` | Zend/zend_API.c:816-861 | every string that can be counted falls into well-spelled pieces that spell it |
| `VaArgs.ParseArg` | Zend/zend_API.c:496-519 | one specifier with all its modifiers is read, and the cursor moves only if the argument converts |
| `VaArgs.HandOut` | Zend/zend_API.c:897-936 | for every well-spelled string and fitting number of arguments: each argument goes to the parameter its position demands, the marker takes the rest, and a failure stops at the first argument that does not convert or meets a piece that cannot be parsed, with the slot emptied |
| `VaArgs.ParseVaArgs` | Zend/zend_API.c:803-937 | for every string and every number of arguments: refused if the string cannot be counted, else accepted exactly when the count fits, the arguments are there, all convert, and none reaches a retired letter, a modifier without a parameter, a bar behind a bar, or a bar behind a marker with an empty window; then every argument is used once, in order |
| `VaArgs.DoubledBar` | Zend/zend_API.c:897-936 | a specifier l, two bars, l: two arguments fit the count but the second reaches the second bar, one argument does not |
| `VaArgs.BarBehindMarker` | Zend/zend_API.c:897-936 | a marker, a bar, l: one argument reaches the bar with an empty window, with two the window is not empty and nothing blocks |
| `VaArgs.RetiredLetter` | Zend/zend_API.c:896-936 | the letter Z alone: one argument fits the count and cannot be parsed |
| `VaArgs.WindowIs` | Zend/zend_API.c:903-921 | the window is one run behind the parameters in front of the marker, of length max(0, n - before - after) |
| `VaArgs.SlotMeans` | Zend/zend_API.c:903-921 | the slot of the marker names exactly the arguments the marker took, is empty if the marker was reached and took none, and untouched if it was not reached |
| `VaArgs.ServedAre` | Zend/zend_API.c:897-936 | the parameters served are exactly the first n less the window, among them all that may not be left out |

## Left out

- Heap: memory is one integer cell per address, a pointer sits in the cell of its first byte; byte order and partial overwriting of pointers are not modelled.
- Heap: the bitmap is a row of booleans inside the heap; the words and masks are proved to compute the same in PageMap and PageSearch, without being called from the heap.
- Heap: sizes are unbounded integers; the 64-bit overflow checks for absurd request sizes are not modelled.
- Heap: a failed allocation ends the run, as the error exit of the source does; continuing after the long jump is not modelled.
- ZendHeap.Heap.DeleteChunk: the main chunk is excluded. The heap itself is stored in it, so what the code does after deleting it is not determined by the source. Whether another empty chunk is cached or one is unmapped is left open, because the source decides by averages kept in floating point.
- ZendHeap.Heap.FreePages: a run that is the last of the main chunk is excluded, for the same reason; Theorems.EmptiedExactly says when a run is that.
- ZendHeap.Heap.FreeLarge: a block must remain in use in the main chunk, for the same reason; this is a little more than that chunk keeping a run.
- ZendHeap.Heap.FreeHeap: to free a large block, another block of the user must be in use in the main chunk, for the same reason; this is a little more than that chunk keeping a run.
- ZendHeap.Heap.SweepRing: a main chunk without a run that lasts is excluded, for the same reason.
- ZendHeap.Heap.Gc: a block must be in use in the main chunk; without one, Theorems.CollectedMain says exactly when the code deletes the main chunk.
- ZendHeap.Heap.Realloc: a block that has to move must not be copied beyond the end of its new block, which the source leaves to its callers; on paths that stay in place the copy length is free. A large block that grows, or stops being large, must not be the only block of the user in the main chunk, since it may have to be freed.
- ZendHeap.Heap.MoveBlock: likewise the bytes copied must fit the new block, and a large block must not be the only one of the user in the main chunk.
- Runs.Run: between the first and the last moment of its history the heap is described by its books, its blocks and the rules for one step, not by every field; the first array is small or large, is neither freed nor resized, and stands for the block that keeps the main chunk in use.
- Heap: soft and full shutdown, custom heaps, custom storage, the debug build with its leak search, huge-page hints, alignment retries and the Windows branches.
- Arenas.Arena.Alloc: the blocks underneath are any aligned blocks clear of each other, or none; a failed block ends the program.
- AstPrinter.RoundTrip: the printed form is a sequence of tokens, so blanks, and the split of characters into tokens, are not modelled; variables, non-negative integers, binary and prefix operators, assignments to variables, coalesce, conditionals and dimensions only.
- AstText.QuotedRoundTrip: a dollar sign without a backslash would start an interpolation in the language; the escaper never leaves one, and the reader of the model does not interpolate.
- AstLists.AstList.constructor: line numbers and node kinds are not kept.
- Tsrm: calls are atomic, storage never runs out, constructors and destructors are entries in a log and do not call back; the chains of the address map are sequences; threads of the operating system are numbers.
- Tsrm.Manager.AllocateId: a known address needs a forced coroutine with a context and an id that is not freed; without one the source indexes its table with -1 or constructs a freed cell.
- Modules: globals and start-up functions are entries in a log; a start-up function that fails ends the run, as in the source; functions that register further modules while the pass runs are not modelled.
- Modules.Registry.IsStarted: the hash table is a search by lower-cased name over the buckets; hashing and rehashing are not modelled.
- VaArgs.ParseVaArgs: conversion of a value is an oracle per argument and specifier; the caller's variables are not modelled except the variadic slot; argument numbers in messages and the messages are left out.
- VaArgs.HandOut: for a number of arguments that does not fit the count nothing is said beyond termination, since the source does not get there.
- Statements, classes, casts and other node kinds of the exporter, zval semantics, hash tables, class registration and request startup: they would add many easy members, or rest on code outside these files.
