# Verified models of the bundled algorithms

This project models four components of the repository in Dafny and proves what each of them is for:

- **The bzip2 block codec** (`blocksort.c`, `huffman.c`, `compress.c`, `decompress.c`, `bzlib.c`), stage by stage and
  end to end. Rotation sorting by doubling, the move-to-front and zero-run coding, length-limited Huffman codes, the
  choice of tables, the bit stream, the resumable decoder, both inverse transforms and both output loops are methods
  proved against specification functions; the stages compose to `RoundTrip.CompressedDecodes` and
  `RoundTrip.StreamCompletes`: whatever calls a compressor that reached the end of its stream was given, and whatever
  calls a decompressor is given on its output, the data comes back, no error is reported on the way, and with all
  input supplied and room left the end is reached. The code lengths are of least cost among all tables that meet the
  Kraft inequality (`HuffmanOptimal.TreeCheapest`), and each table of a block is made for exactly the symbols of the
  groups that chose it (`TableChoice.ChooseTables`).
- **The incrementally rehashed dictionary** (`dict.c`): two half-filled tables behave as one finite map under every
  operation, and the stateless reverse-binary scan covers every key that stays, under any changes between its calls,
  as long as its cursor passes a test that only a rehash between sizes more than one doubling apart can fail. No call
  returns an element twice, and a scan of a dictionary at rest returns each exactly once (`ScanOnce.SteadyScanOnce`).
- **jemalloc's page-run allocator, extent recycler and cuckoo hash table** (`arena.c`, `chunk.c`, `ckh.c`): every run
  operation keeps page maps, counters and trees in agreement, changes nobody else's runs, and leaves every page free or
  used, dirty or clean as stated; the two extent trees hold
  the same disjoint extents; the cuckoo table agrees with a map on every return.
- **The ring buffer** (`ce_ringbuffer.c`): reads and writes of any sizes are a queue of bounded length.

## How it is built

There is one module per file. Value-level definitions and lemmas come first, the classes and methods that follow the C
code use them. Byte strings of the codec become bit sequences (`Bits.BitsOf`, `Bits.BytesToBits`), a rotation order is
`Rotations.IsRotationOrder`, the decoder's labels and save area are the datatype `Decompressor.Decoder` with one
transition per label, a dictionary is tied to its map by `DictMap.Represents`, a cuckoo table by `CuckooTables.Holds`,
and an arena's page maps are read as lists of runs by `PageRuns.RunsFrom`, with `ArenaState.Valid` as the invariant.
`ArenaState.Owned` and `ArenaState.Exchanged` say which allocated runs a step takes away and adds,
`ArenaPages.PagesBecome` and `ArenaPages.Cleaned` what becomes of every page.

The source's own assertions are proved where they stand, as asserts, contracts or loop invariants: checks 1003 to 1005,
2001 and 2002, 3001 to 3006, and the debugging assertions of the run bookkeeping in `arena.c`.

## What the code does that its documentation does not say

- `dictScan` promises that every element present throughout is returned, also when the table shrinks (dict.c:667-725).
  The loop at dict.c:786-798 counts the bits between the two masks upwards in plain order, while the cursor runs in
  reversed order. Let y be the cursor's bits between the masks. A call during a rehash covers the rest of its class
  if and only if `And(y, y + 1) == 0`, that is, y has no zero bit under a one (`DictScan.VisitsRestIff`). A
  scan met by one shrink is complete under the same condition and no other (`DictScan.ShrinkSafeIff`), and
  `DictScan.ScanComplete` gives the guarantee for any changes between the calls. Halving, as in the 16 to 8 of the
  comment, always meets it (`DictScan.HalvingKeeps`), and so do tables that only grow (`DictScan.NextWithin`);
  a shrink from 16 to 4 met at cursor 8 loses the keys of bucket 4 (`DictScan.ShrinkMissesKey`).
- `BZ2_hbMakeCodeLengths` is asked for 17 bits; 12 would do for an alphabet of 258 (`HuffmanLengths.MakeCodeLengths`).
- In `arena_chunk_purge` the branch for the spare chunk (arena.c:971-976) is never taken, because a spare has no dirty
  pages on record (`ArenaState.DirtyPlaying`).
- In `arena_purge` a fragmented chunk can give up more pages than are still wanted. The unsigned count then wraps
  around, and the loop goes on until nothing is dirty. `PageArena.Arena.Purge` covers this case, and
  `ArenaSteps.PurgeMayOvershoot` is a state in which it arises.
- In `arena_ralloc_large_grow` a size below the old one, which a caller may pass together with an extra, wraps around
  in `size - oldsize`, and the call fails even when the run behind is free.
- `ckh_insert` that runs out of memory loses an item other than the new one (ckh.c:466-470): always so, if the table has
  not grown meanwhile, because a chain of evictions ends before it could evict the new item (`CuckooMap.Ckh.Insert`).
  A table of one full bucket is enough, when the allocation of a larger one fails (`CuckooTables.OneBucketHolds`).
- The decoder reads a 15-bit number of selectors and checks only that it is not zero (decompress.c:299-300), while its
  arrays hold 18002 (bzlib_private.h:402-403). It stays within them exactly when that number is at most 18002, which
  holds of every written block (`BlockRoundTrip.SelectorsFit`).
- `dictAddRaw` takes the index of a new key through an int. For tables of up to 2^31 buckets that changes nothing, in a
  larger one some keys would be refused as there already or get a negative index (`DictMap.IndexSurvives`).
- Recycling drops the lock before it puts back a trailing piece, so extents that touch may stay apart
  (`ExtentSets.InterleavingMayTouch`); `ExtentSets.StepMaximalIff` says which steps are to blame.

## Model

| member | source | states |
|---|---|---|
| Quicksort.SimpleSort | src/cevent/3rdparty/bzip2/blocksort.c:30-59 | both insertion passes leave fmap[lo..hi] sorted by class, rearranged and unchanged elsewhere |
| Quicksort.Partition | src/cevent/3rdparty/bzip2/blocksort.c:132-162 | the two scans part the range into equal, smaller, greater and equal elements, with unHi = unLo - 1 |
| Quicksort.VSwap | src/cevent/3rdparty/bzip2/blocksort.c:66-75 | exchanges two stretches of fmap element by element |
| Quicksort.GatherLeft | src/cevent/3rdparty/bzip2/blocksort.c:166 | the first vector swap puts the equal elements behind the smaller ones |
| Quicksort.GatherRight | src/cevent/3rdparty/bzip2/blocksort.c:167 | the second vector swap puts the equal elements before the greater ones |
| Quicksort.SidesSwapped | src/cevent/3rdparty/bzip2/blocksort.c:166-167 | exchanging the ends of two neighbouring regions, as many as the shorter has, swaps the regions |
| Quicksort.BalancedSplit | src/cevent/3rdparty/bzip2/blocksort.c:172-178 | pushing the larger part first keeps the stack in balance: what lies under a segment of size s is made of segments that double in size |
| Quicksort.StackHeight | src/cevent/3rdparty/bzip2/blocksort.c:109-113 | a segment long enough to be partitioned lies no higher than 16 on the stack, for up to 900000 elements |
| Quicksort.Process | src/cevent/3rdparty/bzip2/blocksort.c:113-178 | one turn of the loop: the popped segment is sorted, or parted with its outer parts pushed |
| Quicksort.FallbackQSort3 | src/cevent/3rdparty/bzip2/blocksort.c:93-180 | fmap[lo..hi] ends sorted by class, only that range is permuted, the loop ends, and check 1004 never fails |
| FallbackRadix.CountBytes | src/cevent/3rdparty/bzip2/blocksort.c:231-233 | ftab and its copy hold the number of occurrences of every byte |
| FallbackRadix.PlaceBytes | src/cevent/3rdparty/bzip2/blocksort.c:236-241 | fmap becomes a permutation with the indices in buckets by their byte |
| FallbackRadix.EndsBegin | src/cevent/3rdparty/bzip2/blocksort.c:245 | after placing, ftab[v] is where bucket v begins |
| FallbackRadix.Reconstruct | src/cevent/3rdparty/bzip2/blocksort.c:322-328 | whatever the classes left in the shared memory, the bytes of the block come back, and check 1005 never fails |
| RotationSort.RadixPass | src/cevent/3rdparty/bzip2/blocksort.c:231-257 | fmap sorted by first character, header bits at bucket starts and the sentinels: the state of depth 1 |
| RotationSort.SkipBits | src/cevent/3rdparty/bzip2/blocksort.c:277-291 | bit by bit, word by word, bit by bit: finds the first bit of the other kind, which a sentinel guarantees |
| RotationSort.MarkClasses | src/cevent/3rdparty/bzip2/blocksort.c:266-271 | eclass[k] becomes the start of the bucket that the rotation H characters on is in |
| FallbackLevels.ClassOrder | src/cevent/3rdparty/bzip2/blocksort.c:266-271 | comparing two classes is comparing the characters H to 2H - 1 of the rotations |
| FallbackLevels.NewHeader | src/cevent/3rdparty/bzip2/blocksort.c:299-304 | inside a sorted bucket the new header bits mark exactly the changes within 2H characters |
| FallbackLevels.RefineBucket | src/cevent/3rdparty/bzip2/blocksort.c:297-304 | sorting a bucket by class and marking the changes refines it from depth H to 2H and leaves the other buckets alone |
| RotationSort.SortBucket | src/cevent/3rdparty/bzip2/blocksort.c:294-305 | one bucket l..r, sorted and given its headers |
| RotationSort.SortBuckets | src/cevent/3rdparty/bzip2/blocksort.c:273-306 | all buckets of a round, found by the bit scans |
| RotationSort.Double | src/cevent/3rdparty/bzip2/blocksort.c:261-312 | a turn of the doubling loop: order and buckets to depth H become order and buckets to depth 2H; none left undone means every rotation is alone |
| FallbackLevels.LevelDone | src/cevent/3rdparty/bzip2/blocksort.c:312 | depth n, or every rotation alone in its bucket, is the order of whole rotations |
| RotationSort.FallbackSort | src/cevent/3rdparty/bzip2/blocksort.c:211-329 | fmap lists all rotations in non-decreasing order, periodic blocks included, and the block is restored |
| BlockCompressor.BlockSort | src/cevent/3rdparty/bzip2/blocksort.c:1031-1089 | a rotation order and the row of the unrotated block, for every block of 1 to 900000 bytes; check 1003 never fails |
| Rotations.SortedListingsAgree | src/cevent/3rdparty/bzip2/blocksort.c:1031-1089 | two rotation orders of a block differ only by exchanging equal rotations |
| Rotations.FollowSorted | src/cevent/3rdparty/bzip2/decompress.c:559-564 | the inverse rows are listed by last character, and for the same character in row order |
| Rotations.FollowPermutation | src/cevent/3rdparty/bzip2/decompress.c:559-564 | the inverse rows are a permutation |
| Rotations.UnwindReads | src/cevent/3rdparty/bzip2/decompress.c:559-574 | from a row equal to the rotation at x, following the rows reads the block from x on, however ties were ordered |
| Rotations.BlockTransformInverts | src/cevent/3rdparty/bzip2/compress.c:163-167 | for every block and every rotation order of it, unwinding the last column from the row of the unrotated block gives the block |
| InverseTransform.PlaceFollow | src/cevent/3rdparty/bzip2/decompress.c:529-545 | the T vector and its inverse undo each other |
| InverseTransform.UnwindBytes | src/cevent/3rdparty/bzip2/bzlib_private.h:444-449 | the bytes read by stepping are the bytes of the unwound block |
| InverseTransform.MakeCftab | src/cevent/3rdparty/bzip2/decompress.c:500-503 | cftab holds where every byte begins in the first column |
| InverseTransform.BuildFast | src/cevent/3rdparty/bzip2/decompress.c:559-564 | in place over the last column, tt gets in its high bits the row to visit next, with the byte still below |
| InverseTransform.SetLL | src/cevent/3rdparty/bzip2/bzlib_private.h:458-470 | a 20-bit entry is stored in 16 bits and half a byte, and no other entry changes |
| InverseTransform.GetLL | src/cevent/3rdparty/bzip2/bzlib_private.h:464-473 | reads the entry back |
| InverseTransform.BuildT | src/cevent/3rdparty/bzip2/decompress.c:526-534 | every entry becomes the place of its row in the first column |
| InverseTransform.NextIsNew | src/cevent/3rdparty/bzip2/decompress.c:536-545 | the walk meets no row twice before it is back at origPtr, so the do-while loop ends |
| InverseTransform.ReversePointers | src/cevent/3rdparty/bzip2/decompress.c:536-545 | the cycle through origPtr is turned round, in place, also when there are other cycles |
| OutputRuns.IndexIntoF | src/cevent/3rdparty/bzip2/bzlib.c:687-698 | the binary search returns the byte of the first column at the row |
| OutputRuns.Source.GetFast | src/cevent/3rdparty/bzip2/bzlib_private.h:444-456 | yields the next byte of the unwound block, and the position after it; the position is in range before every step |
| OutputRuns.Source.GetSmall | src/cevent/3rdparty/bzip2/bzlib_private.h:475-479 | yields the same byte and position from the packed, reversed vector; the position is in range before every step |
| Decompressor.TablesAlwaysInRange | src/cevent/3rdparty/bzip2/decompress.c:496-519 | for every block the entries of unzftab and cftab are in range and the starts do not go down, so none of the three checks returns an error |
| OutputRuns.CheckCounts | src/cevent/3rdparty/bzip2/decompress.c:496-501 | the check of unzftab passes exactly when no entry is above the size of the block |
| OutputRuns.CheckStarts | src/cevent/3rdparty/bzip2/decompress.c:507-519 | the checks of cftab pass exactly when no entry is above the size of the block and none is below the one before it |
| OutputRuns.BuildSource | src/cevent/3rdparty/bzip2/decompress.c:494-576 | whichever variant, the decoder stands ready to read the block, and the checks of its tables have passed |
| MoveToFront.EncodeRange | src/cevent/3rdparty/bzip2/compress.c:227 | every symbol of the coding lies between RUNA and the number of bytes in use |
| MoveToFront.EncodeNoLonger | src/cevent/3rdparty/bzip2/compress.c:174-224 | a coding never has more symbols than there are characters |
| MtfEncoder.FlushRun | src/cevent/3rdparty/bzip2/compress.c:174-188 | a run of zeros is written in digits 1 and 2 of base 2, counted, and nothing behind it is touched |
| MtfEncoder.Rotate | src/cevent/3rdparty/bzip2/compress.c:189-206 | the rotating loop finds the position of the character and moves it to the front |
| MtfEncoder.ProgressRank | src/cevent/3rdparty/bzip2/compress.c:163-210 | the writes so far end at or before the entry of ptr that is read next |
| MtfEncoder.GenerateMtfValues | src/cevent/3rdparty/bzip2/compress.c:120-230 | written over ptr from the start of the same memory, the symbols are those of the last column; the frequencies count them; no entry of ptr is overwritten before it is read |
| ByteMaps.MakeMapsE | src/cevent/3rdparty/bzip2/compress.c:106-115 | unseqToSeq numbers the bytes in use in ascending order |
| ByteMaps.MakeMapsD | src/cevent/3rdparty/bzip2/decompress.c:27-36 | seqToUnseq lists the bytes in use in ascending order |
| ByteMaps.SequenceNumber | src/cevent/3rdparty/bzip2/decompress.c:27-36 | the two maps are inverse to each other |
| SlidingMtf.MtfList.constructor | src/cevent/3rdparty/bzip2/decompress.c:358-369 | the sixteen rows of sixteen stand for the list 0..255 |
| SlidingMtf.MtfList.Front | src/cevent/3rdparty/bzip2/decompress.c:399 | mtfa[mtfbase[0]] is the front of the list |
| SlidingMtf.MtfList.MoveNear | src/cevent/3rdparty/bzip2/decompress.c:429-444 | a move within the first row, four cells at a time, is a move to the front of the list |
| SlidingMtf.MtfList.MoveFar | src/cevent/3rdparty/bzip2/decompress.c:445-462 | shifting one row and passing one cell along every row before it is a move to the front of the list |
| SlidingMtf.RepackStep | src/cevent/3rdparty/bzip2/decompress.c:463-472 | each cell is copied to a place at or above everything still to be copied |
| SlidingMtf.MtfList.Repack | src/cevent/3rdparty/bzip2/decompress.c:463-472 | copying the rows back to the high end, in place, keeps the list |
| SlidingMtf.MtfList.Move | src/cevent/3rdparty/bzip2/decompress.c:423-475 | whichever branch, repacking or not: the byte at nn of one 256-element list is returned and moved to its front |
| SelectorDecoder.UndoSelectorMtf | src/cevent/3rdparty/bzip2/decompress.c:302-314 | the shifting loop computes the selectors that the ranks stand for |
| TableRoundTrip.SelectorsUndo | src/cevent/3rdparty/bzip2/compress.c:460-477 | undoing the move-to-front ranks of the selectors gives the selectors |
| HuffmanHeap.UpHeap | src/cevent/3rdparty/bzip2/huffman.c:33-42 | the last entry rises until the heap is one again, with the same members |
| HuffmanHeap.DownHeap | src/cevent/3rdparty/bzip2/huffman.c:44-59 | the first entry sinks until the heap is one again, with the same members |
| HuffmanHeap.RootLightest | src/cevent/3rdparty/bzip2/huffman.c:101-102 | the root of the heap is a lightest entry |
| HuffmanHeap.RemoveLightest | src/cevent/3rdparty/bzip2/huffman.c:101-102 | a lightest entry is taken off the heap |
| HuffmanForest.MergeHeavy | src/cevent/3rdparty/bzip2/huffman.c:25-31 | a merged tree of depth d weighs at least a Fibonacci number that grows with d |
| HuffmanForest.LightLeaves | src/cevent/3rdparty/bzip2/huffman.c:142-146 | with all scaled weights at most 2, no leaf of an alphabet of 258 is deeper than 12 |
| HuffmanForest.TreeIsComplete | src/cevent/3rdparty/bzip2/huffman.c:100-121 | the depths of the leaves of a full binary tree meet the Kraft inequality with equality |
| HuffmanOptimal.TreeCosts | src/cevent/3rdparty/bzip2/huffman.c:100-121 | weight times depth, added up over the leaves, is the weight of all merged nodes |
| HuffmanOptimal.NoneCheaper | src/cevent/3rdparty/bzip2/huffman.c:100-121 | at every stage of the merging, no lengths for the roots that meet the Kraft inequality cost less than the merging still to come |
| HuffmanOptimal.TreeCheapest | src/cevent/3rdparty/bzip2/huffman.c:63-121 | the depths of the tree built by merging the two lightest roots, over and over, cost least of all length tables that meet the Kraft inequality |
| HuffmanOptimal.OftenerNotLonger | src/cevent/3rdparty/bzip2/huffman.c:63-121 | in a least-cost table a symbol of greater weight never has a longer code |
| HuffmanLengths.MergeLightest | src/cevent/3rdparty/bzip2/huffman.c:100-110 | the two lightest trees become one, and the sum of the roots stays |
| HuffmanLengths.GrowTree | src/cevent/3rdparty/bzip2/huffman.c:84-110 | the heap loop builds one tree over all leaves |
| HuffmanLengths.Flatten | src/cevent/3rdparty/bzip2/huffman.c:142-146 | each weight w becomes 1 + w / 2, which lowers their sum as long as one is above 2, and that is what makes the retry loop end |
| HuffmanLengths.MakeCodeLengths | src/cevent/3rdparty/bzip2/huffman.c:63-150 | for 2 to 258 symbols, any frequencies whose sum fits, and a limit of 12 or more: the loop ends, all lengths are between 1 and the limit, the Kraft sum is exactly one, and the lengths are the first within the limit of a chain of least-cost ones: for the frequencies with 1 for 0, and after each that is too long for every weight w made 1 + w / 2 |
| HuffmanLengths.FirstTry | src/cevent/3rdparty/bzip2/huffman.c:79-134 | if the first tree is within the limit, the lengths cost least for the frequencies with 1 for 0, and the more frequent of two symbols that occur never has the longer code |
| HuffmanTables.AssignCodes | src/cevent/3rdparty/bzip2/huffman.c:152-166 | code[s] is the canonical code of s |
| HuffmanTables.CreateDecodeTables | src/cevent/3rdparty/bzip2/huffman.c:170-200 | limit, base and perm are the tables of the canonical code |
| HuffmanCodes.KraftImpliesFits | src/cevent/3rdparty/bzip2/huffman.c:152-166 | lengths that meet the Kraft inequality have codes that fit |
| HuffmanCodes.CodeAboveShorterCodes | src/cevent/3rdparty/bzip2/huffman.c:152-166 | every proper prefix of a code lies above all codes of its length |
| HuffmanCodes.PrefixFree | src/cevent/3rdparty/bzip2/huffman.c:152-166 | no code is a prefix of the code of another symbol |
| HuffmanCodes.WalkStopsAtSymbol | src/cevent/3rdparty/bzip2/decompress.c:74-102 | over the code of s the limit test asks for another bit after each proper prefix, and after the last bit stops inside perm, at s |
| HuffmanCodes.SlotFilled | src/cevent/3rdparty/bzip2/decompress.c:97-101 | whatever the code lengths, complete or not, and whatever the bits: once the limit test passes, the slot of perm that is read, if any, holds a symbol |
| TableChoice.SlowCosts | src/cevent/3rdparty/bzip2/compress.c:386-392 | the cost of a group of symbols with every table |
| TableChoice.FastCosts | src/cevent/3rdparty/bzip2/compress.c:357-385 | the three packed sums of six tables hold the same costs, no half carrying into the other |
| TableChoice.Cheapest | src/cevent/3rdparty/bzip2/compress.c:394-404 | the first table of least cost |
| TableChoice.GroupEnd | src/cevent/3rdparty/bzip2/compress.c:288-299 | a band of the first division reaches just as far as its equal share of what is left takes, less the symbol that every other inner band gives up |
| TableChoice.InitialTables | src/cevent/3rdparty/bzip2/compress.c:278-316 | every symbol is cheap in exactly one of the first tables, and the bands are those of equal shares: each reaches as far as its share of what is left takes, less a symbol for every other inner one |
| TableChoice.AssignGroups | src/cevent/3rdparty/bzip2/compress.c:341-430 | every group of fifty gets its cheapest table, and the frequencies of a table count exactly how often each symbol occurs in the groups that chose it |
| TableChoice.TimesGroup | src/cevent/3rdparty/bzip2/compress.c:409-431 | the symbols of one more group count for the table chosen for it and for no other |
| TableChoice.RemakeTables | src/cevent/3rdparty/bzip2/compress.c:442-450 | each table is made anew from its own frequencies |
| TableChoice.ChooseTables | src/cevent/3rdparty/bzip2/compress.c:237-457 | two to six tables by the number of symbols; from the first division on, each of four passes gives every group a table of least cost and then makes every table a least-cost one, but for the limit of 17, for the symbols of the groups that chose it; the lengths are valid, and there are no more than 18002 selectors, so checks 3002 and 3003 never fail |
| BitWriter.BitStream.constructor | src/cevent/3rdparty/bzip2/compress.c:37-41 | an empty stream |
| BitWriter.BitStream.NeedW | src/cevent/3rdparty/bzip2/compress.c:58-67 | whole bytes leave the buffer and the bits written stay the same |
| BitWriter.BitStream.W | src/cevent/3rdparty/bzip2/compress.c:73-78 | appends the n low bits of v to the bits written so far |
| BitWriter.BitStream.FinishWrite | src/cevent/3rdparty/bzip2/compress.c:46-54 | the bytes out are the bits written and zeros to the end of the last byte |
| BlockWriter.WriteUInt32 | src/cevent/3rdparty/bzip2/compress.c:83-89 | 32 bits, the highest byte first |
| BlockWriter.SelectorRank | src/cevent/3rdparty/bzip2/compress.c:464-476 | the shifting loop yields the selector's rank and moves it to the front |
| BlockWriter.SelectorMtf | src/cevent/3rdparty/bzip2/compress.c:460-477 | the ranks of all selectors |
| BlockWriter.WriteMap16 | src/cevent/3rdparty/bzip2/compress.c:502-504 | sixteen bits tell which groups of bytes are in use |
| BlockWriter.WriteMap | src/cevent/3rdparty/bzip2/compress.c:506-510 | sixteen more for every group in use |
| BlockWriter.WriteRanks | src/cevent/3rdparty/bzip2/compress.c:518-523 | every rank in unary |
| BlockWriter.WriteDelta | src/cevent/3rdparty/bzip2/compress.c:534-535 | a step up or down at a time until the length is reached |
| BlockWriter.WriteTables | src/cevent/3rdparty/bzip2/compress.c:527-538 | all lengths, as differences |
| BlockWriter.AssignAllCodes | src/cevent/3rdparty/bzip2/compress.c:479-491 | the codes of every table; checks 3004 (no length above 17) and 3005 (none below 1) are asserted for each |
| BlockWriter.WriteSymbols | src/cevent/3rdparty/bzip2/compress.c:543-592 | every symbol in the code of its group's table; check 3006 never fails |
| BlockWriter.WriteHeader | src/cevent/3rdparty/bzip2/compress.c:624-651 | block magic, check value, no randomisation, origin |
| BlockWriter.WriteBody | src/cevent/3rdparty/bzip2/compress.c:460-597 | maps, selectors, tables and symbols |
| BlockCompressor.EncodeBlock | src/cevent/3rdparty/bzip2/compress.c:601-653 | the bits appended are a code of the block, with a map of exactly the bytes that occur and with the tables that the four passes choose for its symbols |
| Decompressor.RunSplit | src/cevent/3rdparty/bzip2/decompress.c:43-65 | the label machine fed in two portions is where feeding all at once would take it |
| BitReader.DState.Fetch | src/cevent/3rdparty/bzip2/decompress.c:43-65 | the fetch loop: enough bits, or none left to fetch, and nothing lost either way |
| BitReader.DState.Decompress | src/cevent/3rdparty/bzip2/decompress.c:106-193 | one call on the registers and save area: the machine ends where running on all bits held and supplied takes it |
| BitReader.AnyDivision | src/cevent/3rdparty/bzip2/decompress.c:613-640 | for every way of cutting the input over calls, the last call leaves what one call on all of it leaves |
| HeaderRoundTrip.TakeHeader | src/cevent/3rdparty/bzip2/decompress.c:222-264 | a written block header is read back |
| MapRoundTrip.TakeMaps | src/cevent/3rdparty/bzip2/decompress.c:266-284 | the written maps give the same bytes in use |
| TableRoundTrip.TakeTables | src/cevent/3rdparty/bzip2/decompress.c:316-347 | the written lengths are read back, never leaving 1..20 |
| SymbolRoundTrip.TakeWalk | src/cevent/3rdparty/bzip2/decompress.c:74-102 | the walk over a code reads exactly its bits and yields its symbol |
| SymbolRoundTrip.TakeRunThenSymbol | src/cevent/3rdparty/bzip2/decompress.c:379-419 | a run in digits grows the block by its length in front bytes, with no error return |
| BlockRoundTrip.TakeData | src/cevent/3rdparty/bzip2/decompress.c:375-486 | the symbols of a block rebuild its last column and end at the end-of-block symbol |
| BlockRoundTrip.SelectorsFit | src/cevent/3rdparty/bzip2/bzlib_private.h:402-403 | a written block has at most 18002 selectors, as many as the arrays of the decoder hold |
| BlockRoundTrip.BlockDecodes | src/cevent/3rdparty/bzip2/decompress.c:222-578 | for every block and every plan, the written bits take the decoder to its output state with no error return, that of the range checks included, holding the last column, the origin and the check value, with no more selectors than its arrays hold |
| DecoderReturns.AdvanceReturns | src/cevent/3rdparty/bzip2/decompress.c:488-578 | OK is returned with a block to write, and at no other label |
| DecoderReturns.RunReturns | src/cevent/3rdparty/bzip2/decompress.c:106-641 | the same of a whole run, which takes at least a bit |
| DecoderChecks.StreamMagic | src/cevent/3rdparty/bzip2/decompress.c:196-208 | the answer is that the magic is wrong if and only if the first four bytes are not B, Z, h and a digit from 1 to 9 |
| DecoderChecks.BlockOrTrailer | src/cevent/3rdparty/bzip2/decompress.c:222-236 | where a block may begin, its six magic bytes lead to its check value, those of the trailer to that of the stream, and any others are an error |
| DecoderChecks.OriginRead | src/cevent/3rdparty/bzip2/decompress.c:253-264 | the origin is read from 24 bits and refused if and only if it exceeds the size of a block by more than ten |
| DecoderChecks.RunDigits | src/cevent/3rdparty/bzip2/decompress.c:382-394 | a run may have 21 digits and no more |
| RunLength.PackAllAppend | src/cevent/3rdparty/bzip2/bzlib.c:216-247 | a run added to the block is packed behind the others |
| RunLength.ExpandPackAll | src/cevent/3rdparty/bzip2/bzlib.c:536-682 | un-run-lengthing the packed runs gives their bytes, whatever lies beyond the block |
| InputRuns.RunBuffer.constructor | src/cevent/3rdparty/bzip2/bzlib.c:148-211 | no block and no run held |
| InputRuns.RunBuffer.Prepare | src/cevent/3rdparty/bzip2/bzlib.c:117-126 | a new block begins and the run held stays |
| InputRuns.RunBuffer.AddPairToBlock | src/cevent/3rdparty/bzip2/bzlib.c:216-247 | the held run joins the block: bytes, exactly its bytes marked as in use, check value and at most five places |
| InputRuns.RunBuffer.FlushRL | src/cevent/3rdparty/bzip2/bzlib.c:252-256 | the same, and no run is held |
| InputRuns.RunBuffer.AddChar | src/cevent/3rdparty/bzip2/bzlib.c:260-284 | the data taken in is what it was and one byte more |
| Compressor.EState.constructor | src/cevent/3rdparty/bzip2/bzlib.c:148-211 | a compressor that has taken nothing |
| Compressor.EState.CopyInputUntilStop | src/cevent/3rdparty/bzip2/bzlib.c:289-329 | no byte is lost; stops at a full block, the end of input or of what was announced, so the block keeps below its limit |
| Compressor.EState.CopyOutputUntilStop | src/cevent/3rdparty/bzip2/bzlib.c:334-356 | hands over a prefix of what is ready, as much as there is room for |
| Checksums.CombineBits | src/cevent/3rdparty/bzip2/compress.c:606-607 | bit i of the combined check value is the next bit of what it was, the first one following the last, exclusive-or bit i of the block's |
| Checksums.FinalBits | src/cevent/3rdparty/bzip2/bzlib_private.h:162-165 | the check value of a block is finished by turning every bit over |
| StreamFormat.AllCombinedBits | src/cevent/3rdparty/bzip2/bzlib.c:832-835 | bit i of the combined check value of any number of blocks is the exclusive-or of one bit of each block's, turned once for every block that follows |
| StreamFormat.TwoBlockTrailer | src/cevent/3rdparty/bzip2/compress.c:655-665 | so the trailer of a stream of two blocks holds the first check value turned by a bit, exclusive-or the second |
| Compressor.EState.CompressBlock | src/cevent/3rdparty/bzip2/compress.c:601-666 | a block is closed: stream header before the first, trailer after the last |
| Compressor.EState.HandleCompress | src/cevent/3rdparty/bzip2/bzlib.c:361-403 | keeps the invariant that unpacking the closed blocks, the open block and the held run gives the input consumed, and says exactly why it stopped |
| Compressor.EState.BzCompress | src/cevent/3rdparty/bzip2/bzlib.c:407-464 | the same over any call, with the reply and the mode for every mode and action: a flush or finish under way refuses any other action or a changed amount of input, RUN without progress is a parameter error, FINISH without progress a sequence error; STREAM_END comes exactly with the finished stream handed over, FINISH_OK and FLUSH_OK only for want of room, and RUN closes no block that is more than nineteen bytes short of its size |
| OutputRuns.ShortRun | src/cevent/3rdparty/bzip2/bzlib.c:636-656 | one to three equal bytes and a different one, or the end, are a run |
| OutputRuns.LongRun | src/cevent/3rdparty/bzip2/bzlib.c:658-660 | four equal bytes and a count are a run |
| OutputRuns.NextRunFast | src/cevent/3rdparty/bzip2/bzlib.c:636-660 | the fast reader of a run advances by the run that the block holds there |
| OutputRuns.NextRunSmall | src/cevent/3rdparty/bzip2/bzlib.c:775-800 | the small reader, which looks for the end first, advances by the same run |
| Decompression.Writer.RunFast | src/cevent/3rdparty/bzip2/bzlib.c:536-682 | the bytes written are the next ones of the expanded block, up to the room or the end; corrupt if and only if it comes past the end |
| Decompression.Writer.RunSmall | src/cevent/3rdparty/bzip2/bzlib.c:706-804 | the same of the small variant, which finds the corruption only with room left |
| Decompression.BzStream.constructor | src/cevent/3rdparty/bzip2/bzlib.c:492-528 | a decompressor that was given nothing |
| Decompression.BzStream.EndBlock | src/cevent/3rdparty/bzip2/bzlib.c:822-836 | the check value of the block is compared and combined |
| Decompression.BzStream.BzDecompress | src/cevent/3rdparty/bzip2/bzlib.c:808-858 | however input and room are divided over the calls, output and verdict are those of one call on all the input; OK means no room left, or too few bits for the machine to go on |
| StreamRoundTrip.TakeBlock | src/cevent/3rdparty/bzip2/compress.c:601-666 | a written block comes back as the bytes of its runs, with the right check value, and the next block can follow |
| StreamRoundTrip.StreamDecodes | src/cevent/3rdparty/bzip2/bzlib.c:808-858 | a finished stream decodes to the data of its blocks, all checks passed |
| RoundTrip.CompressedDecodes | src/cevent/3rdparty/bzip2/bzlib.c:407-464 | any sequence of RUN, FLUSH and FINISH calls that reached STREAM_END has delivered bytes that decode to exactly the input taken |
| RoundTrip.StreamCompletes | src/cevent/3rdparty/bzip2/bzlib.c:808-858 | on those bytes, in any pieces, no call reports an error; with all of them supplied and room left it says STREAM_END; and STREAM_END comes with exactly the input written |
| RoundTrip.OutputIsPrefix | src/cevent/3rdparty/bzip2/bzlib.c:808-858 | at any point in between, what it has written is a prefix of the input |
| DictMap.NextPower | src/cevent/util/dict.c:838-848 | the least power of two, from four on, that is no less than the size |
| DictMap.Dict.constructor | src/cevent/util/dict.c:176-186 | an empty dictionary |
| DictMap.Dict.Expand | src/cevent/util/dict.c:202-229 | a table of the next power of two: the first one, or a second one to rehash into; refused during a rehash or when too small |
| DictMap.Dict.Resize | src/cevent/util/dict.c:190-199 | to the least table that holds the elements, four at least |
| DictTables.AtEntry | src/cevent/util/dict.c:473-492 | a key found in a table is at home there, and only its own entry answers |
| DictMap.MoveOne | src/cevent/util/dict.c:257-267 | moving one entry from the front of a chain to its bucket in the other table keeps the map |
| DictMap.Rehashed | src/cevent/util/dict.c:239-245 | when the first table is empty the second stands for the whole map |
| DictMap.MoreBuckets | src/cevent/util/dict.c:252-253 | while elements are left some bucket from rehashidx on is not empty |
| DictMap.Dict.SkipEmpty | src/cevent/util/dict.c:252-253 | the unbounded skip loop ends at a bucket that is not empty |
| DictMap.Dict.MoveBucket | src/cevent/util/dict.c:254-269 | a whole bucket moves, and the map stays |
| DictMap.Dict.Rehash | src/cevent/util/dict.c:235-272 | n steps keep the map and pass exactly n filled buckets, or with fewer left the second table takes the place of the first |
| DictMap.Dict.RehashStep | src/cevent/util/dict.c:301-303 | one filled bucket, or the end, unless iterators are open |
| DictMap.Dict.Search | src/cevent/util/dict.c:478-491 | the search through one or both tables finds the entry of the key, or there is none |
| DictMap.Dict.Find | src/cevent/util/dict.c:473-492 | agrees with the finite map, and moves one filled bucket on while entries are on the move |
| DictMap.Dict.ExpandIfNeeded | src/cevent/util/dict.c:816-835 | creates the first table, doubles at a load of one, or of more than five when resizing is off, and otherwise does nothing |
| DictMap.Dict.Add | src/cevent/util/dict.c:306-353 | adds a key that is not there, and changes nothing otherwise; an empty table gets four buckets, and one with as many elements as buckets, or over five times as many when resizing is off, a second one twice as large as its elements; moves one filled bucket on while entries are on the move |
| DictMap.IndexSurvives | src/cevent/util/dict.c:332-343 | the int that an index is returned in keeps every index exactly for tables of up to 2^31 buckets; in every larger one some index turns negative, and some into the -1 of a key that is there |
| DictMap.Dict.Replace | src/cevent/util/dict.c:359-378 | sets the key's value, and tells whether it is new; while two or more filled buckets are left to move, it moves one on for a new key and two for an old one |
| DictMap.Dict.Delete | src/cevent/util/dict.c:393-432 | takes the key out, and nothing else, and moves one filled bucket on while entries are on the move |
| DictMap.Dict.Size | src/cevent/util/dict.c:202-207 | the used counts of both tables add up to the size of the map |
| ReverseBits.RevWord | src/cevent/util/dict.c:648-656 | the loop of shifted masks reads the 64-bit word backwards |
| ReverseBits.RevTwice | src/cevent/util/dict.c:648-656 | backwards twice is the number |
| ScanCursor.CursorStep | src/cevent/util/dict.c:803-808 | the next cursor comes, in reversed order, right behind everything that shares the cursor's low bits, and is 0 after the last |
| ScanCursor.ClassOfKey | src/cevent/util/dict.c:803-808 | between a cursor and the next lie only hashes with the cursor's low bits |
| ScanCursor.AboveStep | src/cevent/util/dict.c:793-796 | the bits above the smaller mask go up by one |
| ScanCursor.AboveBetween | src/cevent/util/dict.c:797-798 | the loop goes on exactly while the bits between the masks have not come round to zero |
| ScanCursor.InOrderIff | src/cevent/util/dict.c:793-798 | counting up from y misses nothing that follows y in reversed order if and only if y has no zero bit under a one |
| ScanCursor.KeyOrder | src/cevent/util/dict.c:803-808 | for hashes with the same low bits the reversed order is that of their bits between the masks |
| DictScan.ExpansionLoop | src/cevent/util/dict.c:785-798 | the do-while loop emits the expansions from the cursor on |
| DictScan.Scan | src/cevent/util/dict.c:742-811 | what one call emits and the cursor it returns |
| DictScan.NotBelow | src/cevent/util/dict.c:793-798 | a hash of the class of a cursor without a gap that does not come before it in reversed order is not below it in plain order |
| DictScan.ScanClass | src/cevent/util/dict.c:776-798 | a call whose cursor has no gap between the masks emits every entry that shares its low bits and does not come before it |
| DictScan.ScanCovers | src/cevent/util/dict.c:742-811 | after any number of calls, with the dictionary changed between them in any way, every key that stays and whose reversed hash comes before the cursor has been emitted |
| DictScan.ScanComplete | src/cevent/util/dict.c:667-672 | once 0 is returned every key present throughout has been emitted, if each call made during a rehash had a cursor without a gap between the masks |
| DictScan.HalvingKeeps | src/cevent/util/dict.c:709-713 | tables of which one is twice the other leave no room for a gap, so a shrink or growth by half never costs a key, whatever the cursor |
| DictScan.WithinSmaller | src/cevent/util/dict.c:742-811 | a cursor below the size of the smaller table is such a cursor |
| DictScan.NextWithin | src/cevent/util/dict.c:742-811 | the cursor a call returns is below the size of the smaller table it ran under, so tables that only grow always meet the condition |
| DictScan.VisitsClassIff | src/cevent/util/dict.c:716-721 | one call during a rehash visits every bucket of its class if and only if the cursor has no bits at all between the two masks |
| DictScan.VisitsRestIff | src/cevent/util/dict.c:716-721 | one call during a rehash visits every bucket of its class that is not behind the cursor, whatever the larger table holds, if and only if the cursor has no gap between the masks |
| DictScan.ShrinkSafeIff | src/cevent/util/dict.c:667-672 | a scan that meets a shrink at cursor v, whether or not the shrink ends meanwhile and however the tables grow before and after, returns every key present throughout, for all 32-bit hash functions and contents, if and only if v has no gap between the masks |
| DictScan.ShrinkMisses | src/cevent/util/dict.c:667-672 | for every cursor with such a gap there is a whole run that ends without a key that was there throughout |
| DictScan.ShrinkMissesKey | src/cevent/util/dict.c:667-672 | such a run for a shrink from sixteen buckets to four met at cursor 8 |
| DictScan.Scannable | src/cevent/util/dict.c:742-775 | the tables of every valid dictionary of countable size can be scanned |
| ScanOnce.ExpansionsExact | src/cevent/util/dict.c:785-798 | the expansion loop emits no key twice, and only entries of the table whose hashes share the low bits of the cursor |
| ScanOnce.CallExact | src/cevent/util/dict.c:742-811 | whether or not entries are on the move, one call emits no key twice, and only entries that the dictionary holds, with their values, whose hashes share the low bits of the cursor |
| ScanOnce.SteadyScanOnce | src/cevent/util/dict.c:667-725 | a whole scan of a dictionary that does not change meanwhile hands out every entry exactly once and nothing else |
| RingBuffer.Ring.constructor | src/cevent/cevent/ce_ringbuffer.c:33-49 | an empty ring |
| RingBuffer.Ring.CanRead | src/cevent/cevent/ce_ringbuffer.c:51-65 | the number of bytes held, also when head equals tail and the wrap flag is old |
| RingBuffer.Ring.CanWrite | src/cevent/cevent/ce_ringbuffer.c:67-70 | the room left |
| RingBuffer.FastEnds | src/cevent/cevent/ce_ringbuffer.c:85-95 | a read that does not reach the end of the buffer takes a prefix |
| RingBuffer.GatherEnds | src/cevent/cevent/ce_ringbuffer.c:97-126 | a read that does is two copies, and takes a prefix |
| RingBuffer.Ring.Gather | src/cevent/cevent/ce_ringbuffer.c:97-126 | the copying read |
| RingBuffer.Ring.Read | src/cevent/cevent/ce_ringbuffer.c:72-129 | hands over the oldest bytes, as many as asked for and held, and keeps the rest in order |
| RingBuffer.WriteEnds | src/cevent/cevent/ce_ringbuffer.c:143-161 | one copy or two, and the wrap flag, put the new bytes behind the old ones |
| RingBuffer.Ring.Store | src/cevent/cevent/ce_ringbuffer.c:143-156 | the two copies of a write |
| RingBuffer.Ring.Write | src/cevent/cevent/ce_ringbuffer.c:131-164 | appends what fits |
| CuckooTables.Stored | src/cevent/3rdparty/jemalloc/src/ckh.c:92-115 | an item put into a free cell of one of its buckets joins the map |
| CuckooTables.Freed | src/cevent/3rdparty/jemalloc/src/ckh.c:479-507 | an item taken out of its cell leaves the map |
| CuckooTables.Evicted | src/cevent/3rdparty/jemalloc/src/ckh.c:124-191 | an eviction trades one item for another, and no third is touched |
| CuckooTables.KeyAtHome | src/cevent/3rdparty/jemalloc/src/ckh.c:71-89 | every key of the map is in one of its two buckets, which are the low bits of its two hashes |
| CuckooMap.Ckh.constructor | src/cevent/3rdparty/jemalloc/src/ckh.c:348-400 | an empty table, the smallest of at least one bucket with room for minitems at a load of three quarters, if there is memory for it |
| CuckooMap.Ckh.BucketSearch | src/cevent/3rdparty/jemalloc/src/ckh.c:53-65 | a cell of the bucket with the key, or there is none |
| CuckooMap.Ckh.ISearch | src/cevent/3rdparty/jemalloc/src/ckh.c:71-89 | the cell of the key exactly when the map has it |
| CuckooMap.Ckh.Search | src/cevent/3rdparty/jemalloc/src/ckh.c:510-526 | agrees with the map |
| CuckooMap.Ckh.TryBucketInsert | src/cevent/3rdparty/jemalloc/src/ckh.c:92-115 | fills a free cell from a random one on, or the bucket is full and nothing has changed |
| CuckooMap.Ckh.EvictOne | src/cevent/3rdparty/jemalloc/src/ckh.c:135-170 | one turn: the item in hand takes the place of the one that the generator picks in the bucket, which comes into hand together with its other bucket, and no other cell changes |
| CuckooMap.Ckh.EvictRelocInsert | src/cevent/3rdparty/jemalloc/src/ckh.c:124-191 | the chain of evictions ends with the map and the new item, or with the map and the new item less exactly the item in hand, which is always an older one |
| CuckooMap.Ckh.TryInsert | src/cevent/3rdparty/jemalloc/src/ckh.c:194-216 | both buckets, then evictions; the same alternative, only if both buckets are full, always if the whole table is, and never if there are fewer items than a bucket holds |
| CuckooMap.Ckh.Rebuild | src/cevent/3rdparty/jemalloc/src/ckh.c:223-243 | all items into the new table, or the count restored; never fails if there are no more items than a bucket holds |
| CuckooMap.Ckh.Grow | src/cevent/3rdparty/jemalloc/src/ckh.c:246-298 | a larger table with the same map, or the old table untouched; twice as large if there are no more items than a bucket holds; out of memory only if a larger table is refused, and always if the next one is |
| CuckooMap.Ckh.Shrink | src/cevent/3rdparty/jemalloc/src/ckh.c:301-345 | a table half as large with the same map, or the old table untouched; half as large for sure if there is memory and there are no more items than a bucket holds |
| CuckooMap.Ckh.Insert | src/cevent/3rdparty/jemalloc/src/ckh.c:455-476 | the map and the new item; on failure both buckets of the key were full, and the map lacks exactly one item, which unless the table has grown meanwhile is one that was there before |
| CuckooMap.Ckh.Remove | src/cevent/3rdparty/jemalloc/src/ckh.c:479-507 | the map without the key, and the value it had; the table is at most halved, only if it is then less than a quarter full and not at its least size, and then for sure if there is memory and one bucket could hold the items |
| CuckooTables.OneBucketHolds | src/cevent/3rdparty/jemalloc/src/ckh.c:455-476 | a table of one bucket of four cells that holds n items; at n = 4 an insertion that finds no memory to grow loses one of them |
| ExtentSets.TakenOutDisjoint | src/cevent/3rdparty/jemalloc/src/chunk.c:84-118 | taking a range out of an extent and putting back what is left keeps extents disjoint |
| ExtentSets.TakenOutMaximal | src/cevent/3rdparty/jemalloc/src/chunk.c:84-118 | and maximal, if they were |
| ExtentSets.TakenOutCover | src/cevent/3rdparty/jemalloc/src/chunk.c:84-118 | exactly the range is gone, and no more is said to be zeroed |
| ExtentSets.RecordedDisjoint | src/cevent/3rdparty/jemalloc/src/chunk.c:233-286 | recording a range with its neighbours keeps extents disjoint |
| ExtentSets.RecordedMaximal | src/cevent/3rdparty/jemalloc/src/chunk.c:233-286 | run as one step it never leaves two touching extents |
| ExtentSets.RecordedCover | src/cevent/3rdparty/jemalloc/src/chunk.c:233-286 | exactly the range is added, said to be zeroed only if it is |
| ExtentSets.StepsKeepDisjoint | src/cevent/3rdparty/jemalloc/src/chunk.c:84-118 | over any sequence of the steps between which the lock is dropped, by any threads, no address is recorded, in hand or handed out twice |
| ExtentSets.StepMaximalIff | src/cevent/3rdparty/jemalloc/src/chunk.c:104-118 | a step keeps the recorded extents maximal if and only if it does not put back a trailing piece beside a recorded extent |
| ExtentSets.StepsKeepMaximal | src/cevent/3rdparty/jemalloc/src/chunk.c:84-118 | so does any sequence of such steps |
| ExtentSets.AtOnceLonely | src/cevent/3rdparty/jemalloc/src/chunk.c:84-118 | a trailing piece put back before any other step has no recorded neighbour |
| ExtentSets.InterleavingMayTouch | src/cevent/3rdparty/jemalloc/src/chunk.c:94-118 | a sequence of steps from maximal extents that ends with two touching ones and nothing in hand |
| ExtentTrees.CeilingClose | src/cevent/3rdparty/jemalloc/src/chunk.c:76-80 | the aligned address is the next multiple |
| ExtentTrees.WrapDetected | src/cevent/3rdparty/jemalloc/src/chunk.c:64-67 | the size test detects exactly the sums that wrapped |
| ExtentTrees.Extents.SizeSearch | src/cevent/3rdparty/jemalloc/src/chunk.c:68-71 | the smallest extent of at least the size, the lowest of equals |
| ExtentTrees.Extents.StartingAt | src/cevent/3rdparty/jemalloc/src/chunk.c:233-236 | the extent that begins at the address |
| ExtentTrees.Extents.EndingAt | src/cevent/3rdparty/jemalloc/src/chunk.c:267-270 | the extent that ends at the address |
| ExtentTrees.Extents.Recycle | src/cevent/3rdparty/jemalloc/src/chunk.c:45-136 | the best fit, at its first aligned place; both trees keep the same disjoint extents less exactly the range, and less what lies behind it too exactly when there is something left on both sides and no node can be had |
| ExtentTrees.Extents.PutBack | src/cevent/3rdparty/jemalloc/src/chunk.c:84-118 | what lies before and behind the range goes back |
| ExtentTrees.Extents.Record | src/cevent/3rdparty/jemalloc/src/chunk.c:213-298 | both trees gain exactly the range, joined with both neighbours; it leaks exactly when no node can be had and nothing recorded begins where it ends |
| PageRuns.RunsUnique | src/cevent/3rdparty/jemalloc/include/jemalloc/internal/arena.h:92-144 | the entries of a page map determine the list of runs |
| PageRuns.Remarked | src/cevent/3rdparty/jemalloc/include/jemalloc/internal/arena.h:622-697 | rewriting the entries of some runs as other runs changes the list there and nowhere else |
| PageRuns.FewerAdjacent | src/cevent/3rdparty/jemalloc/src/arena.c:231 | a chunk has fewer adjacencies than available runs, which the assertions in the bookkeeping say |
| PageRuns.CarvedFits | src/cevent/3rdparty/jemalloc/src/arena.c:369-408 | splitting keeps the tiling, keeps coalesced runs coalesced, and moves the right number of pages in use |
| PageRuns.JoinedForwardApart | src/cevent/3rdparty/jemalloc/src/arena.c:1100-1125 | joining forward leaves nothing behind that could be joined |
| PageRuns.JoinedBackwardApart | src/cevent/3rdparty/jemalloc/src/arena.c:1127-1152 | nor does joining backward in front |
| PageRuns.JoinedCounts | src/cevent/3rdparty/jemalloc/src/arena.c:1092-1157 | joining makes no page dirty or clean and none used or unused |
| PageRuns.ReleaseUndoesAllocation | src/cevent/3rdparty/jemalloc/src/arena.c:1160-1221 | releasing a run just split off gives back exactly the list of runs there was |
| ArenaPages.CarvedPages | src/cevent/3rdparty/jemalloc/src/arena.c:369-408 | splitting a free run takes its first pages, which were as dirty as the run, and changes no other page |
| ArenaPages.JoinedPages | src/cevent/3rdparty/jemalloc/src/arena.c:1160-1205 | releasing a run makes its pages free and dirty or clean as told, and joining it with its neighbours changes no other page |
| ArenaPages.OneDirtiness | src/cevent/3rdparty/jemalloc/src/arena.c:213-278 | no page is free both dirty and clean |
| ArenaState.Settled | src/cevent/3rdparty/jemalloc/src/arena.c:213-278 | with one chunk's records right again the whole arena is: counters, both trees and page maps agree |
| ArenaState.OwnedApart | src/cevent/3rdparty/jemalloc/src/arena.c:663-715 | allocated runs of a chunk never overlap and never reach into its header |
| ArenaState.DirtyPlaying | src/cevent/3rdparty/jemalloc/src/arena.c:971-976 | no spare is among the chunks with dirty pages, so the branch for it is never taken |
| ArenaState.NoneDirty | src/cevent/3rdparty/jemalloc/src/arena.c:1005-1012 | no chunk in the tree of dirty chunks means no dirty page |
| ArenaState.BestFitExists | src/cevent/3rdparty/jemalloc/src/arena.c:663-682 | when a run is long enough there is a lowest best fit |
| ArenaSteps.FlankFacts | src/cevent/3rdparty/jemalloc/src/arena.c:174-211 | what the adjacency tests find is what the list of runs says, and their assertions hold |
| PageArena.Arena.constructor | src/cevent/3rdparty/jemalloc/src/arena.c:523-530 | an arena without chunks |
| PageArena.Arena.AvailInsert | src/cevent/3rdparty/jemalloc/src/arena.c:213-244 | the run is on record: counters, dirty pages and both trees, under the keys they have then |
| PageArena.Arena.AvailRemove | src/cevent/3rdparty/jemalloc/src/arena.c:246-278 | the run is off record, found under the keys it was inserted with |
| PageArena.Arena.SplitRemove | src/cevent/3rdparty/jemalloc/src/arena.c:369-408 | the run is off record, and what is left of it on |
| PageArena.Arena.SplitLarge | src/cevent/3rdparty/jemalloc/src/arena.c:410-468 | the front of a free run becomes a large run as dirty as it was; no other page changes |
| PageArena.Arena.InitLarge | src/cevent/3rdparty/jemalloc/src/arena.c:470-475 | marking an allocated run again changes no run and no page |
| PageArena.Arena.SplitSmall | src/cevent/3rdparty/jemalloc/src/arena.c:477-521 | the front of a free run becomes a small run as dirty as it was, every page knowing its offset; no other page changes |
| PageArena.Arena.ChunkInitHard | src/cevent/3rdparty/jemalloc/src/arena.c:545-608 | a new chunk is one clean free run, whatever stood in its memory, and its pages are marked as unzeroed unless the memory came zeroed |
| PageArena.Arena.ChunkAlloc | src/cevent/3rdparty/jemalloc/src/arena.c:610-628 | the spare or a new chunk comes into play, its pages as they were |
| PageArena.Arena.ChunkDealloc | src/cevent/3rdparty/jemalloc/src/arena.c:630-660 | a chunk becomes the spare, and the spare before it goes back |
| PageArena.Arena.FirstFit | src/cevent/3rdparty/jemalloc/src/arena.c:668-669 | the shortest run that is long enough, the lowest of equals |
| PageArena.Arena.RunAllocLarge | src/cevent/3rdparty/jemalloc/src/arena.c:685-715 | only the run returned is new among the allocated ones, and it is cut from the lowest best fit if there is one; its pages were free and as dirty as it is, and no other page changes; fails exactly without fit, spare and chunk |
| PageArena.Arena.RunAllocSmall | src/cevent/3rdparty/jemalloc/src/arena.c:740-771 | the same for a small run |
| PageArena.Arena.CoalesceForward | src/cevent/3rdparty/jemalloc/src/arena.c:1100-1125 | joins the run behind if it is free and as dirty |
| PageArena.Arena.CoalesceBackward | src/cevent/3rdparty/jemalloc/src/arena.c:1127-1152 | joins the run in front if it is free and as dirty |
| PageArena.Arena.Release | src/cevent/3rdparty/jemalloc/src/arena.c:1160-1227 | only the run released is gone from the allocated ones; it is free, joined with its neighbours; its pages, and no others, become free, dirty if the caller says so or if the run was dirty and not cleaned, and the counters follow; a chunk all free becomes the spare |
| PageArena.Arena.RunDalloc | src/cevent/3rdparty/jemalloc/src/arena.c:1160-1232 | the same; after a dirty release, and no other, purging brings the dirty pages within the threshold when they are above it, and is left out when they are not |
| PageArena.Arena.TrimHead | src/cevent/3rdparty/jemalloc/src/arena.c:1235-1265 | only the front of the run is given back, as dirty as the run is, with purging if it is dirty |
| PageArena.Arena.TrimTail | src/cevent/3rdparty/jemalloc/src/arena.c:1267-1298 | only the back of the run is given back, dirty if the caller says so or the run is, with purging if it is dirty |
| PageArena.Arena.Palloc | src/cevent/3rdparty/jemalloc/src/arena.c:1698-1750 | an aligned run of exactly the size is new, and nothing else changes hands; what is trimmed off the free run it was cut from is as clean or dirty as before and no other page changes, but that dirty pages may be purged after a dirty trimming, which then ends within the threshold |
| ArenaPages.Trimmed | src/cevent/3rdparty/jemalloc/src/arena.c:1733-1741 | pages trimmed off a run just allocated are what they were before, unless purged |
| PageArena.Arena.RallocShrink | src/cevent/3rdparty/jemalloc/src/arena.c:1983-2011 | the run keeps its front; the rest is free and dirty, with purging |
| PageArena.Arena.RallocGrow | src/cevent/3rdparty/jemalloc/src/arena.c:2013-2077 | in place up to size + extra, taking over pages that were free; dirty if the run or those pages were; fails exactly when size is below the old one or no free run behind is long enough |
| PageArena.Arena.DallocBinRun | src/cevent/3rdparty/jemalloc/src/arena.c:1799-1848 | a small run is given back: its pages are free and dirty, but for those never touched of a run that was clean, which are free and clean; then dirty pages may be purged |
| PageArena.Arena.StashDirty | src/cevent/3rdparty/jemalloc/src/arena.c:827-883 | exactly the dirty runs, or those of them beside a clean free run, are taken, and their pages with them and no others; no adjacency is left, and no dirt if all were asked for |
| ArenaSteps.StashedApart | src/cevent/3rdparty/jemalloc/src/arena.c:880-882 | the assertions at the end of the walk |
| PageArena.Arena.UnzeroedSet | src/cevent/3rdparty/jemalloc/src/arena.c:919-922 | writing an unzeroed flag of a taken page keeps the arena right and the taken runs allocated |
| PageArena.Arena.PurgeStashed | src/cevent/3rdparty/jemalloc/src/arena.c:885-931 | whatever other threads do before and after every flag written, as long as they keep the arena right and the taken runs allocated, so it is in the end, and this thread has written unzeroed flags of those runs alone |
| ArenaSteps.QuietTrace | src/cevent/3rdparty/jemalloc/src/arena.c:885-931 | without other threads nothing but unzeroed flags has changed |
| PageArena.Arena.UnstashPurged | src/cevent/3rdparty/jemalloc/src/arena.c:933-952 | the stashed runs are free again and their pages clean; no other page changes |
| PageArena.Arena.ChunkPurge | src/cevent/3rdparty/jemalloc/src/arena.c:954-999 | exactly the pages of the picked runs become clean: all dirty ones when asked for or without adjacencies, else those beside a clean run; they are taken from the state found and given back to the one that other threads left while the lock was dropped, and no other run changes hands |
| PageArena.Arena.Purge | src/cevent/3rdparty/jemalloc/src/arena.c:1001-1080 | ends; the pages asked for are clean, or all are; less than a chunk more than asked for is cleaned unless a fragmented chunk is met, and all is, if the chunk taken first gives up more than is wanted; free pages stay free, used ones used, and no clean one becomes dirty; npurgatory is as before |
| ArenaSteps.PurgeMayOvershoot | src/cevent/3rdparty/jemalloc/src/arena.c:1037-1078 | a state of two fragmented chunks in which two pages are to be purged and either chunk gives up three, so that all six go |
| PageArena.Arena.MaybePurge | src/cevent/3rdparty/jemalloc/src/arena.c:773-794 | nothing happens without a limit or within it; otherwise some dirty free pages become clean, no page changes otherwise, and afterwards the purgeable pages are within the threshold, and less than a chunk below it when no chunk is fragmented |
| PageArena.Arena.PurgeAll | src/cevent/3rdparty/jemalloc/src/arena.c:1082-1089 | no dirty page is left but those other threads are purging; no page changes otherwise |

## Left out

bzip2

- `mainSort` and its helpers: another implementation of the same rotation order; the model sorts every block with
  `fallbackSort`.
- The randomised-block path: the compressor never sets the bit; the model's decoder stops when it meets it.
- The capacity of the decoder's selector arrays: the model keeps selectors in sequences, and a number of selectors above
  18002, which would not fit the arrays, is read like any other.
- The 256-entry check-value table: the update of a check value by a byte is a parameter, and everything holds for any.
- Allocation failure, verbosity and the 64-bit totals of bytes in and out.
- The stdio layer of `bzlib.c` and the command-line tools.
- `Compressor.EState`: the fields of one C structure are split into the run buffer, the bit stream and the rest;
  `zbits` keeps the whole stream, where the original starts again at every block.
- The memory that `block`, `eclass` and the zeroed bit table share: `RotationSort.StoreClass` overwrites the bytes of
  the block that a class shares its memory with, but the two are separate arrays; `mtfv` over `ptr` is modelled as one
  array of half-words.
- Arrays that the original allocates once for the largest block are taken at the length in use.
- The jumps of `unRLE_obuf_to_output_FAST` that skip a test already known are folded into one loop.

dict

- Chains are sequences, not linked entries, and the key and value hooks and allocation failure are left out.
- `DictMap.Dict.Add`: the index is a natural number, where the original keeps it in an int; they differ only for tables
  of more than 2^31 buckets.
- `DictMap.NextPower`: does not model the cut at `LONG_MAX`.
- Hash functions are parameters.
- Iterators but for their count, which holds back rehashing; `dictFingerprint`, `dictGetRandomKey`, `dictEmpty`,
  `dictReplaceRaw` and statistics.

Ring buffer

- NULL arguments; `ce_rb_free`.

ckh

- `CuckooMap.Ckh.EvictRelocInsert`: a fuel bounds the chain of evictions, because whether it ends depends on the
  pseudo-random sequence. A chain cut short ends with an item in hand, like a chain that came back to its start.
- `CuckooMap.Ckh.TryInsert`: likewise.
- `CuckooMap.Ckh.Rebuild`: stops at a chain cut short, where the original would go on.
- `CuckooMap.Ckh.Grow`: backs out a rebuilding with a chain cut short and stops, where the original would go on.
- `CuckooMap.Ckh.Shrink`: backs out a rebuilding with a chain cut short, where the original would go on.
- `CuckooMap.Ckh.Insert`: stops at a chain cut short, without the item in hand, where the original would go on.
- `CuckooMap.Ckh.Remove`: a shrink with a chain cut short is backed out, where the original would go on.
- Allocation: whether there is memory for a table is a parameter, and sizes overflow from a largest exponent on.
- The hash functions, deletion of the table and iteration.

chunk

- Red-black trees are sorted sequences, sizes and addresses are counted in chunks, and nodes are values: a node that is
  changed and put back is a new one.
- `ExtentTrees.Extents.Recycle` and `ExtentTrees.Extents.Record` run as single steps; what holds under interleaving is
  stated for the steps in `ExtentSets`. Zero filling, `chunk_alloc` and `chunk_dealloc` around them are left out.

arena

- Chunks are values held by the arena in the order they were mapped, rather than headers reached through addresses; a
  chunk given back to the system stays in that list, marked as unmapped. Sizes are counted in pages.
- The two red-black trees are sets of keys, each element standing under the key it was inserted with.
- `PageArena.Arena.Purge`: takes any chunk with dirty pages next, not the most fragmented one, and calls `ChunkPurge`
  without other threads, on whose dirty pages its end would depend.
- The contents of pages, so zero filling and what the unzeroed flags promise about it; statistics; junk filling.
- The bin that a small run belongs to is read from the page map, where the original follows a pointer in the run's
  header.
- Bins, thread caches and regions inside small runs; huge allocations.
