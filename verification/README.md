# Verified models of the kernel's core

Models, with proofs, of five parts of a small x86-64 kernel. Each operation is taken as running to completion under its
lock. State that the kernel updates in place is a class with those fields; the abstract values (blocks of memory, areas,
flat address maps, byte vectors, the logical screen) are functions of the state or ghost fields tied to it.

- **Frame allocator** (`Basics`, `Options`, `Bits`, `BuddySpace`, `FrameLists`, `FramePool`, `UninitRegions`,
  `AllocatorFacts`, `FrameAllocator`): the lazy buddy system with sharded free lists, per-CPU caches, emergency reserve
  and uninitialised regions. A map from frames to owners makes the partition of memory exact by construction; lists and
  frame metadata are tied to it.
- **Address spaces** (`SplitMix`, `Areas`, `Treap`, `AreaMerging`, `VmaTree`, `PageEntry`, `PageWalk`, `TableEdits`,
  `TableProbe`, `ReverseMap`, `AddressTables`, `MapOutcomes`, `UserMemory`, `PageCopies`, `Dropping`, `Forking`,
  `SharedFrames`, `UserAccess`): the treap of memory areas, the four-level page tables of all address spaces with the
  reverse map, page migration, fork, dropping an address space, and range checks. Page tables refine a flat map from
  addresses to mappings.
- **FAT32 files** (`FlatFile`, `FatDevice`, `FatGeometry`, `BootSectors`, `FatChains`, `FatContents`, `FatGrowth`,
  `FatSpace`, `FatRecords`, `FatFiles`, `FatRemount`, `ShortWrites`): cluster chains on a flat byte device refine the
  byte-vector file of the in-memory file system; when a write succeeds and what a failed one leaves behind is exact, and
  the bytes of the device alone say what the files are.
- **Terminal** (`ScreenCells`, `Screen`, `ScreenEditing`, `ControlFunctions`, `EditingLaws`, `Sgr`, `SgrLaws`, `Utf8`,
  `TerminalContext`, `TerminalImage`, `TerminalSteps`, `Terminal`, `TerminalRuns`, `TextLines`, `SequenceSettings`,
  `SequenceRuns`, `EditingRuns`, `SgrRuns`, `ControlRuns`, `SaveRuns`, `TidyRuns`, `PrivateRuns`): the
  deferred-write screen agrees with a plain array of cells, editing functions have closed forms, and the byte parser
  refines a step function, about whose runs whole texts, control sequences and save and restore are proved.
- **Run queues** (`Stride`, `Stealing`, `RunQueues`): stride scheduling and work stealing.

`dafny verify dfyconfig.toml` checks the whole project.

## Assumptions

- Frame metadata exists for every frame below the total; the caller of `Deallocate` frees only blocks it holds (frames of
  the reserve keep the allocated state, so the state alone cannot tell).
- The mapper is given page-aligned pages of the lower half and aligned frames below 2^52, as the entry format demands. The
  side table of entry counts covers every frame. The frame allocator appears there as the set of frames it may hand out.
- User pages are mapped onto frames that are not page tables; this is part of the invariant the operations keep.
- User areas lie in the lower half and are mapped by 4K pages.
- A FAT volume has at least one table copy, and its cluster numbers are below the end marks. Device reads and writes inside
  the device succeed.
- Rows and columns are below 2^32. Glyphs and widths of code points, colour conversion and the colour table are parameters.
- Which locks were obtained, the current processor, and whether a frame may be moved are parameters.

Where the code departs from what its names suggest, the code is followed, and a member shows it: the count raised for a new
page table is the child's; a rejected insert of an area can lose a predecessor; a freed frame can still be mapped after
migration when it was shared; a write that fails can leave bytes that a later write makes part of the file, and clusters
that belong to no file; a full refresh can leave an orphan in the draw queue; a cancelled private sequence makes the next
sequence a private one; stolen tasks have their queue flag unset and can be queued twice.

## Model

| member | source | states |
|---|---|---|
| `FrameAllocator.LazyBuddyAllocator.constructor` | mm/src/frame_allocator/allocator_core.rs:414-472 | A fresh allocator over the boot regions meets the full invariant: every usable frame is uninitialised, nothing is held or free. |
| `FrameAllocator.LazyBuddyAllocator.Allocate` | mm/src/frame_allocator/allocator_core.rs:989-1041 | A served block is new and becomes the one additional held block, every other held block stays, and no frame changes between usable and unusable. Unless compaction is tried, the block is the one that cache, lists, regions and reserve give in this order, and a failure changes nothing. Compaction is tried exactly when the order is above a single frame, everything is dry, 1024 calls have passed since the last one and no free block of that order exists; then the call succeeds if and only if there is an aligned run of free frames, cached ones included, and the caches end empty. |
| `FrameAllocator.LazyBuddyAllocator.Deallocate` | mm/src/frame_allocator/allocator_core.rs:1043-1084 | Exactly the frames of the given held block become free or join the reserve; no other frame changes between held, reserve, free and uninitialised; freeing something that is not held changes nothing. Which list takes the block is given: a single frame goes to the reserve while that holds fewer than 32, otherwise the block heads the processor's cache, and a full cache passes it on to the global lists. The reserve never grows beyond 32 this way. |
| `FrameAllocator.LazyBuddyAllocator.FreeAndMerge` | mm/src/frame_allocator/allocator_core.rs:741-774 | The block's frames join the global lists, merged upwards so that no two free buddies of one order remain; all other frames keep their place and cached lists are untouched. |
| `FrameAllocator.LazyBuddyAllocator.AllocFromList` | mm/src/frame_allocator/allocator_core.rs:649-681 | Fails only when no aligned run of 2^order globally free frames exists at all; on success the block that is taken is the head of the first shard, in rotation from the caller's, of the smallest order that fits; its first part is held and the rest stays globally free. |
| `FrameAllocator.LazyBuddyAllocator.AllocFromUninit` | mm/src/frame_allocator/allocator_core.rs:683-739 | Carves the first aligned run out of the first region that can hold it, in rotation from the last one used, releasing the gap before it to the free lists; fails, changing nothing, only when no region can hold the order. |
| `FrameAllocator.LazyBuddyAllocator.ReleaseGap` | mm/src/frame_allocator/allocator_core.rs:700-722 | Every frame of the gap becomes globally free in maximal aligned blocks and nothing else changes. |
| `FrameAllocator.LazyBuddyAllocator.PopFromGlobal` | mm/src/frame_allocator/allocator_core.rs:580-600 | Takes the head of the first shard, in rotation from the caller's, that holds a block of exactly this order, or shows that no shard holds one; lists stay doubly linked. |
| `FrameAllocator.LazyBuddyAllocator.PushToGlobal` | mm/src/frame_allocator/allocator_core.rs:602-622 | The held block becomes the head of its shard's list; no other list and no other block changes. |
| `FrameAllocator.LazyBuddyAllocator.RemoveFromList` | mm/src/frame_allocator/allocator_core.rs:624-647 | Unlinks one node: neighbours are joined, the head moves when the node was first, every other node is untouched. |
| `FrameAllocator.LazyBuddyAllocator.AllocGlobal` | mm/src/frame_allocator/allocator_core.rs:921-938 | Fails, changing nothing, exactly when neither the lists nor the regions hold an aligned run of the order; otherwise a new block is held: from the lists whenever they have a run, by the rule for lists, and else carved from the regions. |
| `FrameAllocator.LazyBuddyAllocator.PercpuPopRaw` | mm/src/frame_allocator/allocator_core.rs:776-792 | Takes the head of the processor's list, or shows the list empty; the count stays the list's length. |
| `FrameAllocator.LazyBuddyAllocator.PercpuPushRaw` | mm/src/frame_allocator/allocator_core.rs:802-815 | The block becomes the head of the processor's list and is counted. |
| `FrameAllocator.LazyBuddyAllocator.PercpuPush` | mm/src/frame_allocator/allocator_core.rs:817-834 | Gives a held block back through the cache: it becomes the head of the processor's list if that is below its limit, and otherwise is freed to the global lists, the cache ending as it was. |
| `FrameAllocator.LazyBuddyAllocator.PercpuRefill` | mm/src/frame_allocator/allocator_core.rs:901-919 | Fails, changing nothing, exactly when lists and regions are exhausted; otherwise serves the block that lists and regions choose first and fills the cache to a whole batch, or until both are exhausted; the reserve is not touched. |
| `FrameAllocator.LazyBuddyAllocator.DrainPercpuAll` | mm/src/frame_allocator/allocator_core.rs:836-852 | All per-CPU lists end empty; their frames are globally free, and held, reserved and uninitialised frames are untouched. |
| `FrameAllocator.LazyBuddyAllocator.MaxFreeOrder` | mm/src/frame_allocator/allocator_core.rs:854-885 | The largest order of any free block, cached or global. |
| `FrameAllocator.LazyBuddyAllocator.Compact` | mm/src/frame_allocator/allocator_core.rs:887-899 | Afterwards the globally free frames are exactly those that were free or cached, the caches are empty, and the largest free order has not dropped. |
| `FrameAllocator.LazyBuddyAllocator.ReservePop` | mm/src/frame_allocator/allocator_core.rs:940-955 | Takes the head of the reserve list or shows it empty; the reserve count stays exact. |
| `FrameAllocator.LazyBuddyAllocator.ReservePush` | mm/src/frame_allocator/allocator_core.rs:957-969 | A single held frame becomes the head of the reserve list. |
| `FrameAllocator.LazyBuddyAllocator.InitReserve` | mm/src/frame_allocator/allocator_core.rs:971-986 | Adds frames to the reserve one by one; stops early only when nothing is left to take. |
| `FrameAllocator.LazyBuddyAllocator.TryAllocate` | mm/src/frame_allocator/allocator_core.rs:998-1015 | The head of the caller's cached list is served first; with an empty cache the block that lists or regions choose; when these are dry, for single frames, the head of the reserve; a failure changes nothing and means all of them are dry. |
| `FrameAllocator.LazyBuddyAllocator.CompactAndRetry` | mm/src/frame_allocator/allocator_core.rs:1018-1036 | After compaction a second attempt is made; when lists and regions were exhausted it succeeds if and only if an aligned run of free frames of the order, cached ones included, exists; the caches are empty if it fails. |
| `AllocatorFacts.NoOverlap` | mm/src/frame_allocator/allocator_core.rs:989-1041 | A block handed out shares no frame with any block held at the time. |
| `AllocatorFacts.CompactGrows` | mm/src/frame_allocator/allocator_core.rs:887-899 | Moving cached frames to the global lists never lowers the largest free order. |
| `AllocatorFacts.ServedCount` | mm/src/frame_allocator/allocator_core.rs:1010-1011 | Serving a block raises the sum of 2^order over held blocks by exactly its size. |
| `AllocatorFacts.ReturnedCount` | mm/src/frame_allocator/allocator_core.rs:1043-1084 | Giving a block back lowers that sum by exactly its size. |
| `AllocatorFacts.ReserveBounded` | mm/src/frame_allocator/allocator_core.rs:1043-1084 | Wherever a freed block is put, the reserve does not grow beyond 32 frames. |
| `AllocatorFacts.CompactedRuns` | mm/src/frame_allocator/allocator_core.rs:887-899 | After compaction, there is an aligned run on the global lists exactly when there was one of free frames, cached or not. |
| `BuddySpace.BlocksDisjoint` | mm/src/frame_allocator/allocator_core.rs:649-681 | In every well-formed state two different blocks share no frame. |
| `BuddySpace.FreeRunInOneBlock` | mm/src/frame_allocator/allocator_core.rs:741-774 | When free buddies are always merged, any aligned run of 2^k globally free frames lies inside one free block. |
| `BuddySpace.NoBlockNoRun` | mm/src/frame_allocator/allocator_core.rs:649-681 | If no free block of order k or more is listed, then no aligned run of 2^k globally free frames exists. |
| `FramePool.OneList` | mm/src/frame_allocator/allocator_core.rs:580-647 | A block is a member of at most one list, at one position. |
| `UninitRegions.OneHome` | mm/src/frame_allocator/allocator_core.rs:683-739 | A usable frame is uninitialised exactly when it lies in an uninitialised region, and then in one only; otherwise it lies in exactly one block. |
| `AllocatorFacts.OnePlace` | mm/src/frame_allocator/allocator_core.rs:580-1084 | The partition of memory: each usable frame lies in exactly one of an uninitialised region, a held block, or a block on one list (a shard's, a processor's or the reserve). |
| `Bits.BuddyFacts` | mm/src/frame_allocator/allocator_core.rs:741-756 | The buddy address, an exclusive or, is the other half of the enclosing aligned block, and taking it twice comes back. |
| `SplitMix.Injective` | mm/src/memory_set/vma_tree.rs:81-87 | The priority hash is one-to-one on 64-bit keys, so areas with different starts never tie. |
| `Treap.MergeMeaning` | mm/src/memory_set/vma_tree.rs:89-105 | Merging two treaps gives a treap whose in-order areas are those of the first followed by those of the second. |
| `Treap.SplitMeaning` | mm/src/memory_set/vma_tree.rs:107-127 | Splitting at a key gives two treaps whose in-order areas are exactly those below and those from the key on. |
| `Treap.InsertMeaning` | mm/src/memory_set/vma_tree.rs:129-139 | Inserting a node puts its area at its place in the order and keeps the heap order and `max_end`. |
| `Treap.RemoveMeaning` | mm/src/memory_set/vma_tree.rs:141-153 | Removing a key takes exactly that area out and returns it. |
| `Treap.RemoveMissing` | mm/src/memory_set/vma_tree.rs:141-153 | Removing a key that no area starts at keeps the areas and returns nothing. |
| `Treap.MaxEndMeaning` | mm/src/memory_set/vma_tree.rs:65-78 | The cached `max_end` is the largest end of any area below the node. |
| `Treap.FindPrev` | mm/src/memory_set/vma_tree.rs:155-167 | The last stored area that starts at or below the key, or none. |
| `Treap.FindNext` | mm/src/memory_set/vma_tree.rs:169-181 | The first stored area that starts at or above the key, or none. |
| `Treap.FindContaining` | mm/src/memory_set/vma_tree.rs:183-203 | The one stored area that holds the address, or none; descending by `max_end` misses nothing. |
| `Treap.InOrderWalk` | mm/src/memory_set/vma_tree.rs:205-217 | The stack-based traversal lists the areas in order. |
| `Treap.ShapeUnique` | mm/src/memory_set/vma_tree.rs:81-139 | Two treaps with the same in-order areas are the same tree. |
| `Treap.SameAreasSameTree` | mm/src/memory_set/vma_tree.rs:81-139 | The tree depends on the set of areas only, not on the order they were inserted in. |
| `VmaTree.VmaTree.InsertArea` | mm/src/memory_set/vma_tree.rs:307-348 | Succeeds exactly when the range is non-empty and overlaps nothing; then the address-to-flags map is the old one plus the new range, and areas stay disjoint with no two touching areas of equal flags. A rejected insert changes nothing unless the new area extends a predecessor, in which case exactly that predecessor is lost. |
| `VmaTree.RejectionLoses` | mm/src/memory_set/vma_tree.rs:320-331 | A tree built by two inserts and a rejected third: the touching predecessor is gone. |
| `VmaTree.VmaTree.CheckRange` | mm/src/memory_set/address_space.rs:116-152 | True exactly when every address of the range lies in an area that carries all required flags. |
| `PageEntry.Decode` | mm/src/page_table.rs:67-86 | Address and flags of an entry are read back as they were written, for every aligned address below 2^52 and every set of flags. |
| `PageEntry.FlagBits` | mm/src/page_table.rs:12-40 | Adding a flag to an entry adds the bit the processor has for it: 0 present, 1 writable, 2 user, 3 write-through, 4 no cache, 5 accessed, 6 dirty, 7 huge, 8 global, 63 no execute. |
| `PageWalk.PageIsSpan` | mm/src/addr.rs:110-129 | In the lower half two addresses use the same table entry of a level exactly when they lie in the same aligned 4K, 2M, 1G or 512G span. |
| `MapOutcomes.IndexDigits` | mm/src/addr.rs:110-129 | The four table indices and the page offset are the digits of the virtual address, nine bits each and twelve. |
| `PageWalk.WriteElsewhere` | mm/src/mapper.rs:81-121 | Writing an entry changes no walk, in any address space, that does not pass through it. |
| `PageWalk.AlikeInPage` | mm/src/mapper.rs:258-302 | Addresses of one 4K page are always mapped alike. |
| `TableEdits.HangKeeps` | mm/src/mapper.rs:95-117 | Hanging a fresh empty table under an unused entry changes no translation and keeps the tables of all address spaces disjoint trees. |
| `TableEdits.WriteLeaf` | mm/src/mapper.rs:151-160 | Filling or clearing a leaf remaps exactly the addresses of its page in its address space. |
| `TableEdits.RootKeeps` | mm/src/memory_set/address_space.rs:27-71 | A new top-level table maps nothing in the lower half and leaves all other address spaces alone. |
| `TableEdits.RootGone` | mm/src/memory_set/address_space.rs:462-467 | Taking a top-level table away leaves every walk of every other address space as it was. |
| `AddressTables.LeafCleared` | mm/src/mapper.rs:123-125 | A mapper-made table is counted 1 + its leaf entries, so clearing a leaf never brings the count to zero and the table is never reclaimed; the 16-bit counter does not wrap. |
| `AddressTables.Mapper.NextTable` | mm/src/mapper.rs:81-121 | Follows or creates the next table: all translations are kept, a frame of the allocator is used exactly when a table was missing, and the two errors arise exactly when a huge page is in the way or the allocator is empty. |
| `AddressTables.Mapper.MapPage` | mm/src/mapper.rs:132-224 | Which of success or the four errors results is given by the state before; on success exactly the addresses of the chosen 4K, 2M or 1G page, all unmapped before, map to the frame with the flags, and every other address of every address space is as before; after an error all are. |
| `MapOutcomes.MapOutcome` | mm/src/mapper.rs:132-224 | Success and each of the four errors, if and only if: a larger page maps the address; there are fewer frames than tables lacking; the slot is in use; a 2M page or frame is not a multiple of 2M; in this order. |
| `MapOutcomes.ReachMeans` | mm/src/mapper.rs:81-121 | The walk that makes tables is blocked exactly when a larger page maps the address, and otherwise lacks exactly the tables below the last one there is. |
| `AddressTables.Mapper.UnmapPage` | mm/src/mapper.rs:311-435 | Reports an unmapped page without changing anything; otherwise returns the frame of the mapping and unmaps exactly the addresses of that mapping; no table is given back. |
| `AddressTables.MapThenUnmap` | mm/src/mapper.rs:132-435 | Unmapping what was just mapped returns the frame and restores every translation and the reverse map. |
| `AddressTables.Mapper.Translate` | mm/src/mapper.rs:258-302 | The unrolled four-level walk computes the recursive definition of translation, for all page sizes. |
| `AddressTables.Mapper.MigratePage` | mm/src/mapper.rs:439-454 | For a 4K page the move cannot fail: the old frame is returned, exactly that page maps to the new frame, and the reverse map follows. |
| `AddressTables.Mapper.NewBare` | mm/src/memory_set/address_space.rs:27-71 | A new address space shares the kernel half, maps nothing below it and changes no other. |
| `AddressTables.Mapper.DropRoot` | mm/src/memory_set/address_space.rs:462-467 | Giving back the top-level table of an empty address space changes no other; the frame is free again. |
| `AddressTables.Mapper.PageAccessOk` | mm/src/memory_set/address_space.rs:193-239 | True exactly when the page is mapped by a leaf that carries the required flags; intermediate entries never narrow it. |
| `AddressTables.Mapper.RmapAny` | mm/src/rmap.rs:72-77 | The first entry of the lowest frame in the reverse map, or none when it is empty. |
| `ReverseMap.RetainMeaning` | mm/src/rmap.rs:58-60 | Retaining drops exactly the entries of the given address space and page. |
| `ReverseMap.Exact` | mm/src/rmap.rs:42-64 | For each frame the map lists, without repetition, exactly the pages of all address spaces whose 4K user entry points at it. |
| `ReverseMap.AddKeeps` | mm/src/rmap.rs:42-52 | Mapping a user page and recording it keeps the two in agreement. |
| `ReverseMap.RemoveKeeps` | mm/src/rmap.rs:54-64 | Clearing a user page and forgetting it keeps the two in agreement. |
| `UserMemory.MovedBytes` | mm/src/frame_allocator/allocator_core.rs:1114-1126 | Copying a page and moving its mapping leaves the byte at every address of every address space in place. |
| `UserMemory.MovedFree` | mm/src/frame_allocator/allocator_core.rs:1128-1141 | After the move, freeing the old frame leaves no free frame mapped exactly when nothing else mapped it. |
| `UserMemory.SharedStays` | mm/src/frame_allocator/allocator_core.rs:1086-1144 | A frame the reverse map lists more than once stays mapped after one of its pages has moved away. |
| `UserMemory.SoleEntry` | mm/src/frame_allocator/allocator_core.rs:1086-1144 | When every mapping is a 4K user page, a frame is used by its first listed page alone exactly when the reverse map lists it once: a test the caller can make. |
| `UserMemory.Memory.MigrateOne` | mm/src/frame_allocator/allocator_core.rs:1086-1144 | Every byte at every address is kept; it succeeds exactly when the lowest listed frame is managed and movable and a frame is free; afterwards no free frame is mapped exactly when the frame given back was mapped by that page alone, which for 4K user pages is when the reverse map listed it once. |
| `SharedFrames.FreedInUse` | mm/src/frame_allocator/allocator_core.rs:1086-1144 | From any nine free frames: one frame mapped at two pages, and one migration, after which the allocator holds a frame that is still mapped. |
| `Forking.CopyPage` | mm/src/memory_set/address_space.rs:394-418 | One page of the child is mapped on a fresh frame with the area's flags and holds the parent's bytes, or zeros; everything else reads as before. It never succeeds for a page that an earlier area covers too, fails only for such a page or with fewer than four free frames, and then loses at most the frame in hand. |
| `Forking.CopyArea` | mm/src/memory_set/address_space.rs:387-420 | All pages of an area are copied; on failure the error says which of the two causes it was, and four frames a page are always enough. |
| `Forking.CopyAreas` | mm/src/memory_set/address_space.rs:387-420 | All areas are copied in order; it succeeds only if no two areas share a page, and fails only if they do or if there are fewer than four free frames a page. |
| `Forking.CloneAreas` | mm/src/memory_set/address_space.rs:380-385 | The child's tree is the same tree as the parent's. |
| `Forking.Fork` | mm/src/memory_set/address_space.rs:373-423 | The child has the parent's areas, maps exactly their pages, each byte equal to the parent's or zero where the parent had nothing mapped, on frames no other address space uses. On failure areas share a page or frames ran out, the child is dropped, and of the frames taken only page tables and at most one frame are not given back. Every address of every earlier address space translates and reads as before in all cases. |
| `Dropping.DropPage` | mm/src/memory_set/address_space.rs:445-459 | Unmaps one page of an address space, if it is mapped, and gives its frame back; nothing of any other address space changes. |
| `Dropping.DropPages` | mm/src/memory_set/address_space.rs:445-459 | The pages of all areas: afterwards nothing of the address space is mapped, and exactly the frames of its pages were given back. |
| `Dropping.DropSpace` | mm/src/memory_set/address_space.rs:430-469 | For any address space whose areas are mapped by 4K pages on managed frames: afterwards it is gone, exactly its pages' frames and its top-level table are free in addition, and every other address space is as before; no free frame is mapped if and only if no other address space maps one of its frames. |
| `Dropping.GoneFree` | mm/src/memory_set/address_space.rs:430-469 | Dropping a space leaves no free frame mapped exactly when it shared no frame with another. |
| `UserAccess.CheckRangeMapped` | mm/src/memory_set/address_space.rs:156-191 | True exactly when every address of the range lies in an area with the required flags and is mapped with them. |
| `FatDevice.WordRoundTrip` | kernel_fs/src/fs/fatfs.rs:65-77 | A 32-bit word is read back from its little-endian bytes. |
| `FatDevice.EntryWritten` | kernel_fs/src/fs/fatfs.rs:397-405 | Writing a table entry changes that entry in every copy and nothing else: other entries, all cluster contents, and the equality of the copies are kept. |
| `FatDevice.ClusterWritten` | kernel_fs/src/fs/fatfs.rs:416-444 | Writing inside a cluster changes that cluster only and never a byte of the tables. |
| `FatGeometry.MountedFits` | kernel_fs/src/fs/fatfs.rs:903-937 | For every boot sector of a FAT32 volume, with the arithmetic wrapping as it does: the layout has the tables end where the data area starts and all clusters on the device exactly when the sector counts are sensible, on a device of the size they state. |
| `FatGeometry.ParsedBounds` | kernel_fs/src/fs/fatfs.rs:79-118 | Every boot sector that is accepted has fields of their widths, with sector size, cluster size and table size not zero; which bytes they are read from is stated by the round trips below. |
| `BootSectors.BootRoundTrip` | kernel_fs/src/fs/fatfs.rs:79-118 | Every layout is read back from the boot sector written for it byte by byte, with sector counts in their 16-bit or 32-bit fields, whatever the other bytes are. |
| `BootSectors.BootCovers` | kernel_fs/src/fs/fatfs.rs:79-118 | Every sector that is accepted is the boot sector of the layout read from it, so no field is read from elsewhere. |
| `BootSectors.BootRefused` | kernel_fs/src/fs/fatfs.rs:79-118 | A sector is refused exactly when the sector size, the cluster size, or the table size in both its fields is zero. |
| `BootSectors.MountWritten` | kernel_fs/src/fs/fatfs.rs:903-937 | The layout that mounting gives, in the fields the boot sector was written with: where the tables and the data start, their sizes, and the number of clusters; a root directory of fixed size is not supported. |
| `BootSectors.CommonVolume` | kernel_fs/src/fs/fatfs.rs:903-937 | The layout of a one-gigabyte volume as commonly formatted, in numbers. |
| `BootSectors.OnDisk` | kernel_fs/src/fs/fatfs.rs:390-444 | Which bytes of the device an entry of the table and the contents of a cluster are: four bytes for each entry, of which 28 bits count; clusters of the data area counted from two. |
| `FatChains.ChainsApart` | kernel_fs/src/fs/fatfs.rs:407-414 | Live chains are acyclic, pairwise disjoint, inside the data area, and ended by an end mark. |
| `FatChains.FreeUnowned` | kernel_fs/src/fs/fatfs.rs:453-468 | A cluster whose entry is zero belongs to no chain. |
| `FatChains.ExtendChain` | kernel_fs/src/fs/fatfs.rs:775-795 | Linking an unowned cluster behind the last one keeps all chains sound. |
| `FatContents.HeldOnce` | kernel_fs/src/fs/fatfs.rs:1010-1060 | A chain and a size determine the bytes of a file. |
| `FatContents.SliceWritten` | kernel_fs/src/fs/fatfs.rs:1081-1098 | Writing the slice of a cluster brings the file one cluster further towards the written vector. |
| `FatContents.AllWritten` | kernel_fs/src/fs/fatfs.rs:1079-1104 | When all clusters are written the chain holds what the in-memory file would, padded with zeros. |
| `FatContents.CutShort` | kernel_fs/src/fs/fatfs.rs:1079-1104 | When the clusters run out, the chain holds the file with the prefix of the bytes written that its clusters have room for. |
| `FatFiles.FatFs.ReadFatEntry` | kernel_fs/src/fs/fatfs.rs:390-395 | The 28-bit entry of the cluster, or an error exactly when it lies outside the table. |
| `FatFiles.FatFs.WriteFatEntry` | kernel_fs/src/fs/fatfs.rs:397-405 | The entry is set in all copies; all other entries and all contents are kept. |
| `FatFiles.FatFs.AllocateCluster` | kernel_fs/src/fs/fatfs.rs:453-468 | The first free cluster becomes an end mark with zeroed contents; fails only when no cluster is free. |
| `FatFiles.FatFs.EnsureCluster` | kernel_fs/src/fs/fatfs.rs:775-795 | Returns the first and the idx-th cluster of the chain, which grows to just that length, by zeroed clusters that were free, one for one, while all other chains and contents are kept; fails only when the volume is full. |
| `FatFiles.FatFs.FreeChain` | kernel_fs/src/fs/fatfs.rs:470-482 | Terminates at the end mark and frees exactly the clusters of the chain; every other entry and all contents are kept. |
| `FatFiles.FatFs.WriteOne` | kernel_fs/src/fs/fatfs.rs:1081-1098 | One round of the write loop brings the file one cluster further; it fails only when the chain ends and no cluster is free, and then the rounds before it stand. |
| `FatFiles.FatFs.WriteClusters` | kernel_fs/src/fs/fatfs.rs:1072-1099 | Succeeds if and only if the clusters of the chain and the free ones together have room up to the end of the write. Then the chain holds the written vector; otherwise the volume is full and the chain holds exactly the prefix it has room for; no other chain changes. |
| `FatFiles.FatFs.UpdateEntry` | kernel_fs/src/fs/fatfs.rs:766-773 | The directory entry on the device records first cluster and size; no byte outside the entry changes. |
| `FatRecords.RecordRoundTrip` | kernel_fs/src/fs/fatfs.rs:766-773 | First cluster and size are read back from a directory entry as recorded; the halves of the cluster stand at bytes 20 and 26, the size at 28, and every other byte is kept. |
| `FatRecords.EntryEntered` | kernel_fs/src/fs/fatfs.rs:766-773 | Recording one file's entry leaves the entries of all other files as they are, since entries do not overlap. |
| `FatFiles.FatFs.Write` | kernel_fs/src/fs/fatfs.rs:1062-1107 | Succeeds if and only if the file's clusters and the free clusters before the call have room up to the end of the write; then the file takes just the clusters it lacks out of the free ones. It then holds exactly what the in-memory file would if and only if the gap it opens behind the recorded size is zero; that is so for every file not spoiled before, and stays so. A failed write keeps handle and size, leaves the prefix there was room for, uses up all free clusters, and leaves the file unspoiled exactly when that prefix has only zeros beyond the size. No other file changes, and the recorded size is the length modulo 2^32. After success the directory entry on the device says first cluster and size of the file; that the device says this of every file is part of the invariant, which every write keeps. |
| `FatFiles.EntriesBeside` | kernel_fs/src/fs/fatfs.rs:1062-1107 | Bytes written to the data of one file or to the tables never touch a directory entry. |
| `FatFiles.ClustersLost` | kernel_fs/src/fs/fatfs.rs:1062-1107 | A failed write leaves clusters that belong to no file exactly when the file had no cluster and some were free; then all of those are lost. |
| `FatRemount.DeviceDetermines` | kernel_fs/src/fs/fatfs.rs:903-1107 | Two mounts of the same bytes have the same file behind the same entry: the same first cluster, size and bytes. |
| `FatRemount.ChainUnique` | kernel_fs/src/fs/fatfs.rs:397-405 | The table alone determines the chain from a first cluster. |
| `FatSpace.SpendsExtend` | kernel_fs/src/fs/fatfs.rs:775-795 | Linking a cluster behind a chain takes one free cluster for one cluster of the chain; clusters of no file stay what they are. |
| `FatSpace.ResetStray` | kernel_fs/src/fs/fatfs.rs:1062-1107 | When the whole volume went into a chain whose first cluster is then not recorded, the clusters of no file are those before and all that were free. |
| `FatFiles.FatFs.Read` | kernel_fs/src/fs/fatfs.rs:1010-1060 | On every volume, spoiled files included: copies exactly the bytes the in-memory file would give and leaves the rest of the buffer alone. |
| `ShortWrites.SpoiledTail` | kernel_fs/src/fs/fatfs.rs:1062-1107 | A small volume as it is mounted from its boot sector, on which a write fails half way and a later write makes the leftover bytes part of the file, where the in-memory file has zeros. |
| `ShortWrites.LostCluster` | kernel_fs/src/fs/fatfs.rs:1062-1107 | The same volume with an empty file: a write that fails takes the last free cluster away for good, so that a write of one byte, which succeeds on the fresh volume, fails. |
| `ShortWrites.DiskMounts` | kernel_fs/src/fs/fatfs.rs:903-937 | Mounting the bytes of that volume gives its layout, and its directory entry records what the handle says. |
| `FlatFile.WrittenMeaning` | kernel_fs/src/fs/tmpfs.rs:151-163 | The written vector: length, written bytes, kept bytes, zeros in a gap. |
| `FlatFile.ReadBack` | kernel_fs/src/fs/tmpfs.rs:137-163 | What was written is read back, a gap reads as zeros, bytes before it are kept. |
| `FlatFile.WriteRefines` | kernel_fs/src/fs/fatfs.rs:1062-1107 | Writing a chain with a size agrees with writing the file of that size exactly when the gap is zero. |
| `FlatFile.ShortRefines` | kernel_fs/src/fs/fatfs.rs:1062-1107 | After a short write the bytes of the file are those of the prefix written over it, and zeros follow exactly when no other byte was written beyond the size. |
| `FlatFile.TmpfsFile.Read` | kernel_fs/src/fs/tmpfs.rs:137-149 | Copies the part of the vector that exists at the offset. |
| `FlatFile.TmpfsFile.Write` | kernel_fs/src/fs/tmpfs.rs:151-163 | Grows the vector with zeros and overwrites the range. |
| `ScreenCells.RoomLeft` | flanterm_rust/src/flanterm_backends/fb.rs:507-545 | Queued items and mapped cells correspond one to one, so a cell that is not queued never meets a full queue. |
| `Screen.Screen.Push` | flanterm_rust/src/flanterm_backends/fb.rs:507-545 | Exactly one cell of the logical screen changes, or none when the position is off screen; the correspondence is kept. |
| `Screen.Screen.Scroll` | flanterm_rust/src/flanterm_backends/fb.rs:574-597 | The in-place loop moves the rows between the margins up by one, blanks the last and leaves all other cells alone, whatever is queued. |
| `Screen.Screen.RevScroll` | flanterm_rust/src/flanterm_backends/fb.rs:547-572 | The same downwards. |
| `Screen.Screen.Clear` | flanterm_rust/src/flanterm_backends/fb.rs:599-616 | All cells become blank; the cursor goes home when asked. |
| `Screen.Screen.SetCursorPos` | flanterm_rust/src/flanterm_backends/fb.rs:618-636 | Positions are clamped to the screen, with words above half the range counting as negative. |
| `Screen.Screen.GetCursorPos` | flanterm_rust/src/flanterm_backends/fb.rs:638-650 | The cursor's row and its column, or the last column when it stands behind it. |
| `Screen.Screen.MoveCharacter` | flanterm_rust/src/flanterm_backends/fb.rs:652-672 | One cell takes the logical character of another. |
| `Screen.Screen.RawPutchar` | flanterm_rust/src/flanterm_backends/fb.rs:798-836 | The cell the character lands on, after wrapping, clamping or scrolling, takes it, and the cursor stands behind it; where runs of characters end up is stated for typing below. |
| `Screen.Screen.SwapPalette` | flanterm_rust/src/flanterm_backends/fb.rs:141-152 | The colours that are seen are exchanged; a background in the colour of the canvas is left transparent and a foreground never is. |
| `Screen.ExchangedTwice` | flanterm_rust/src/flanterm_backends/fb.rs:141-152 | Two swaps always show the same colours again; they restore the stored ones exactly when the foreground was not transparent and the background not given in the colour of the canvas. |
| `Screen.Screen.DrawCursor` | flanterm_rust/src/flanterm_backends/fb.rs:724-747 | The cursor's cell is shown with swapped colours and its queued character goes into the grid. |
| `Screen.Screen.Flush` | flanterm_rust/src/flanterm_backends/fb.rs:749-796 | Grid and display show the logical screen, the cursor's cell with swapped colours, the old cursor is gone, and queue and map are empty. |
| `Screen.Screen.FullRefresh` | flanterm_rust/src/flanterm_backends/fb.rs:838-891 | The logical screen is kept; the correspondence survives exactly when the cursor's cell was not queued, and the display exactly when the cursor stands where it was last drawn or has equal colours. |
| `Screen.RefreshBreaks` | flanterm_rust/src/flanterm_backends/fb.rs:838-891 | A concrete screen that a refresh leaves out of order. |
| `ScreenEditing.ScrollBy` | flanterm_rust/src/flanterm.rs:1055-1067 | Scrolling count times moves the rows of the region up by count and blanks the freed rows. |
| `ScreenEditing.RevScrollBy` | flanterm_rust/src/flanterm.rs:1068-1080 | The same downwards. |
| `ScreenEditing.EraseLine` | flanterm_rust/src/flanterm.rs:1201-1224 | Blanks exactly the part of the line the mode names and puts the cursor back. |
| `ScreenEditing.EraseDisplay` | flanterm_rust/src/flanterm.rs:1099-1128 | Blanks exactly from the cursor to the end, from the start to the cursor, or everything. |
| `ScreenEditing.InsertBlanks` | flanterm_rust/src/flanterm.rs:1129-1150 | The rest of the line moves right by the clamped count and blanks take its place. |
| `ScreenEditing.DeleteChars` | flanterm_rust/src/flanterm.rs:1151-1175 | The rest of the line moves left by the clamped count and blanks follow. |
| `ScreenEditing.EraseChars` | flanterm_rust/src/flanterm.rs:1176-1191 | Blanks the clamped count of cells from the cursor on. |
| `ControlFunctions.Margins` | flanterm_rust/src/flanterm.rs:1225-1240 | The margins a region sets always enclose a line of the screen; one that does not fit, or of fewer than two rows, gives the whole screen. |
| `EditingLaws.ErasedCell` | flanterm_rust/src/flanterm.rs:1099-1224 | Erasing by column and row: which cells each mode of erase in line, erase in display and erase characters blanks, all others kept. |
| `EditingLaws.ShiftedCell` | flanterm_rust/src/flanterm.rs:1129-1175 | Inserting and deleting characters by column and row: what each cell of the line holds afterwards, all other lines kept. |
| `EditingLaws.MovedRow` | flanterm_rust/src/flanterm.rs:1055-1266 | Inserting and deleting lines and scrolling by column and row: what each row between the cursor, or the top margin, and the bottom margin holds afterwards, all others kept. |
| `EditingLaws.InsertDelete` | flanterm_rust/src/flanterm.rs:1129-1191 | Deleting the characters just inserted brings the line back, but for those pushed off its end; inserting as many as were deleted is erasing them. |
| `EditingLaws.InsertDeleteLines` | flanterm_rust/src/flanterm.rs:1055-1080 | The same for lines between the margins. |
| `EditingLaws.ScrollBack` | flanterm_rust/src/flanterm.rs:1251-1266 | The same for scrolling up and down. |
| `EditingLaws.LinesAsScrolling` | flanterm_rust/src/flanterm.rs:1055-1080 | Outside the margins lines are neither inserted nor deleted; from the top margin on it is scrolling. |
| `EditingLaws.MovedTo` | flanterm_rust/src/flanterm.rs:958-1005 | Where the relative cursor functions go, stopped by the edge of the screen, or by the margins in origin mode. |
| `EditingLaws.MovedAbsolute` | flanterm_rust/src/flanterm.rs:1007-1054 | Where the absolute ones go, counted from one, from the top margin in origin mode. |
| `EditingLaws.MovesUndone` | flanterm_rust/src/flanterm.rs:958-1054 | A move and its opposite come back, for columns if and only if the edge was not met or stood on; positioning is a row and a column move in either order. |
| `Sgr.Apply` | flanterm_rust/src/flanterm.rs:399-688 | For every list of parameters, attributes and both text colours are those of the parameters applied in turn, with extended colours taking their own; no parameters reset everything; palette accesses stay in bounds. |
| `Sgr.One` | flanterm_rust/src/flanterm.rs:415-613 | One parameter has its own effect on attributes and text colours, also in reverse video; the effects are stated by number below. |
| `Sgr.Extended` | flanterm_rust/src/flanterm.rs:614-683 | Extended colours take exactly the parameters that belong to them, and stop when they are missing. |
| `Sgr.RenderedHalves` | flanterm_rust/src/flanterm.rs:415-613 | A colour of text leaves the background alone and the other way round, also in reverse video; reverse video on and off shows the same colours, and restores the stored ones under the condition for two swaps. |
| `Sgr.RenderedTone` | flanterm_rust/src/flanterm.rs:415-613 | A colour that names a palette entry is painted in that entry's normal or bright form, bright when bold or when a bright one is named. |
| `Sgr.RenderedReset` | flanterm_rust/src/flanterm.rs:399-688 | A zero that is a parameter of its own, wherever it comes, undoes every parameter before it: the result is that of the parameters behind it on plain attributes and default colours. |
| `SgrLaws.PaletteColour` | flanterm_rust/src/flanterm.rs:513-569 | For each of the eight colours: 30 to 37 and 90 to 97 set the foreground to that palette entry, 40 to 47 and 100 to 107 the background, normal or bright, with the attribute, and leave the other half alone. |
| `SgrLaws.Switches` | flanterm_rust/src/flanterm.rs:411-613 | Which attribute 0, 1, 5, 7, 22, 25, 27, 39 and 49 set, and that they set no other. |
| `SgrLaws.Ignored` | flanterm_rust/src/flanterm.rs:411-688 | All other numbers do nothing. |
| `SgrLaws.BoldTone` | flanterm_rust/src/flanterm.rs:431-512 | What boldness on and off makes of the foreground and the background, for palette, direct and default colours, in reverse video too. |
| `SgrLaws.BoldCommutes` | flanterm_rust/src/flanterm.rs:431-569 | Boldness and a colour may come in either order, and a bright colour is what boldness makes of the normal one. |
| `SgrLaws.DirectInk` | flanterm_rust/src/flanterm.rs:614-643 | A direct colour takes the next three numbers for red, green and blue, and gives the named half that colour. |
| `SgrLaws.RgbBytes` | flanterm_rust/src/flanterm.rs:624-634 | Red, green and blue are the third, second and first byte of a direct colour, the low byte of each number. |
| `SgrLaws.IndexedColour` | flanterm_rust/src/flanterm.rs:644-679 | Of the 256 colours the first eight are the palette, the next eight its bright form, the others the table's; larger numbers do nothing. |
| `SgrLaws.UnfinishedColour` | flanterm_rust/src/flanterm.rs:614-683 | An extended colour with too few parameters ends the function; one of unknown kind is passed over. |
| `SgrLaws.IndexedAsPlain` | flanterm_rust/src/flanterm.rs:513-683 | A colour of the first sixteen by its index is the same as by its own number if and only if boldness does not matter to it and, in reverse video, the attributes of both halves name it already. |
| `SgrRuns.InkRun` | flanterm_rust/src/flanterm.rs:399-688 | The bytes of the sequence with any numbers up to sixteen: attributes and colours become those of the numbers in turn, and nothing else changes. |
| `SgrRuns.ForegroundRun` | flanterm_rust/src/flanterm.rs:513-531 | The five bytes of a foreground colour: the attribute, the palette entry painted, and nothing else. |
| `SgrRuns.DirectRun` | flanterm_rust/src/flanterm.rs:614-643 | The bytes of a direct colour with the three numbers as they are written. |
| `TerminalContext.CollectedRight` | flanterm_rust/src/flanterm.rs:884-895 | A numeric parameter is read right exactly when it fits 32 bits. |
| `Terminal.Target` | flanterm_rust/src/flanterm.rs:958-1054 | The clamping steps of the cursor functions compute the closed form of each movement and stay on screen. |
| `Terminal.Terminal.Move` | flanterm_rust/src/flanterm.rs:958-1054 | The cursor goes where the closed form of the movement says, and nothing else changes. |
| `Terminal.Terminal.IndexLine` | flanterm_rust/src/flanterm.rs:1389-1414 | Index, next line and reverse index: the region scrolls exactly at its margin, otherwise the cursor moves and stays on screen. |
| `Terminal.Terminal.EditLine` | flanterm_rust/src/flanterm.rs:1129-1224 | The text is the closed form of the editing function, and only a cursor past the last column moves. |
| `Terminal.Terminal.EditLines` | flanterm_rust/src/flanterm.rs:1055-1128 | The same for functions on whole lines. |
| `Terminal.Terminal.Repeat` | flanterm_rust/src/flanterm.rs:1267-1291 | The last character is entered again as often as asked, with room made each time in insert mode. |
| `Terminal.Terminal.Final` | flanterm_rust/src/flanterm.rs:945-1308 | For every final byte the screen is the closed form of its function: movement, editing, colours, margins, or repetition; and so is the parser's state. |
| `Terminal.Terminal.Parameter` | flanterm_rust/src/flanterm.rs:884-910 | Digits and separators change the parameters as specified, without ever exceeding sixteen, and other bytes end the one under way. |
| `Terminal.Terminal.ControlSequence` | flanterm_rust/src/flanterm.rs:833-1308 | Any byte inside a control sequence has its specified effect on screen and parser and keeps every index in bounds. |
| `Terminal.Terminal.OscByte` | flanterm_rust/src/flanterm.rs:799-831 | The command buffer never overflows, bytes already collected are kept, and the state is the specified one. |
| `Terminal.Terminal.PrivateMode` | flanterm_rust/src/flanterm.rs:702-731 | One private mode changes its own flag only; origin mode homes the cursor, the alternate screen clears. |
| `Terminal.Terminal.DecPrivate` | flanterm_rust/src/flanterm.rs:690-741 | All parameters of a private sequence are applied in turn to modes and screen; other final bytes change nothing. |
| `Terminal.Terminal.FullReset` | flanterm_rust/src/flanterm.rs:1380-1388 | All modes are initial, the screen is blank in the default colours and the cursor is home. |
| `Terminal.Terminal.Control` | flanterm_rust/src/flanterm.rs:850-881 | The screen is the closed form of the control character: a tab goes to the next stop on screen, a line feed scrolls the region exactly on its last line; only the shift characters change the parser. |
| `Terminal.Terminal.PutScalar` | flanterm_rust/src/flanterm.rs:1553-1571 | A decoded code point is typed as its glyph, or as a replacement as wide as it is. |
| `Terminal.Terminal.EscapeByte` | flanterm_rust/src/flanterm.rs:1338-1423 | Any byte of an escape sequence has its specified effect on screen, parser and saved state. |
| `Terminal.Terminal.Continuation` | flanterm_rust/src/flanterm.rs:1522-1578 | A byte of a multi-byte sequence either continues it, prints its glyphs, or breaks it and is looked at again after a replacement character. |
| `Terminal.Terminal.Putchar` | flanterm_rust/src/flanterm.rs:1509-1698 | The terminal's code refines its step function: every byte in every state gives exactly the specified screen, parser and saved state, and keeps all indices in bounds, margins legal and the cursor on screen. |
| `Terminal.Terminal.Write` | flanterm_rust/src/flanterm.rs:389-397 | Every byte stream takes the terminal through a run of the step function; with automatic flush the display then shows the logical screen and the cursor. |
| `TerminalImage.TypedRun` | flanterm_rust/src/flanterm_backends/fb.rs:798-836 | Characters that fit the rest of the line take its next cells in order. |
| `TextLines.TypedFlows` | flanterm_rust/src/flanterm_backends/fb.rs:798-836 | With wrapping and scrolling on, a run of characters is written one after the other over the screen and on to new rows below the region, which scrolls up once for each; rows above and below the region do not move, and the cursor stands behind the last character. |
| `TextLines.TypedWithin` | flanterm_rust/src/flanterm_backends/fb.rs:798-836 | Within the region, lines follow each other on the screen, scrolling on or off. |
| `TextLines.TypedHeld` | flanterm_rust/src/flanterm_backends/fb.rs:798-836 | With wrapping off, or on the last row of a region that does not scroll, what does not fit the line falls on its last column. |
| `TextLines.TypedBelow` | flanterm_rust/src/flanterm_backends/fb.rs:798-836 | Below the region lines are continued down to the last row of the screen. |
| `TextLines.TypedLastRow` | flanterm_rust/src/flanterm_backends/fb.rs:798-836 | There a full line is written over from its first column. |
| `TerminalImage.AgainFills` | flanterm_rust/src/flanterm.rs:1267-1291 | Repetition within the line fills the next cells. |
| `TerminalImage.AgainInserts` | flanterm_rust/src/flanterm.rs:1267-1291 | In insert mode the rest of the line moves aside for all copies at once. |
| `TerminalSteps.PrivateMeaning` | flanterm_rust/src/flanterm.rs:690-741 | Each private mode flag takes the new value exactly when some parameter names it. |
| `TerminalRuns.RunUnique` | flanterm_rust/src/flanterm.rs:389-397 | The bytes and the first state determine the whole run. |
| `TerminalRuns.TextRun` | flanterm_rust/src/flanterm.rs:1509-1698 | Every text of printable characters, encoded in UTF-8 (RFC 3629), is typed as its glyphs, in order, and nothing else happens. |
| `TextLines.TextFlows` | flanterm_rust/src/flanterm.rs:1509-1698 | Every text in UTF-8, over as many lines as it takes, is written as a run of characters is, scrolling included. |
| `TextLines.TextHeld` | flanterm_rust/src/flanterm.rs:1509-1698 | The same on a line that is not continued. |
| `SequenceRuns.ParameterRun` | flanterm_rust/src/flanterm.rs:884-910 | Any list of decimal parameters, some possibly empty, is read as its first sixteen numbers. |
| `SequenceRuns.SequenceRun` | flanterm_rust/src/flanterm.rs:833-1308 | From rest, the bytes of a control sequence have exactly the effect of its function with the parameters given, defaults filled in, on the screen and on attributes, margins, modes and the saved cursor, and leave the terminal at rest, unless the private flag is still set: then they have the effect of a private sequence. |
| `SequenceRuns.PrivateRun` | flanterm_rust/src/flanterm.rs:690-741 | From rest, the bytes of a private sequence set or reset exactly the modes they name, clear or home the screen accordingly, and change no other setting. |
| `SequenceRuns.CursorRun` | flanterm_rust/src/flanterm.rs:690-741 | The sequences that show and hide the cursor change that and nothing else. |
| `SequenceRuns.GivenValues` | flanterm_rust/src/flanterm.rs:884-931 | Numbers that are written and not zero are what the function sees. |
| `SequenceSettings.EndSettings` | flanterm_rust/src/flanterm.rs:912-1308 | What a final byte changes besides the screen: attributes, the saved cursor, margins, insert mode, or the private modes, each by its own function only. |
| `SequenceSettings.PrivateSettings` | flanterm_rust/src/flanterm.rs:690-741 | Private modes applied in turn: each is set or reset exactly when some parameter names it, and leaving the alternate screen makes the attributes plain. |
| `SequenceRuns.PositionRun` | flanterm_rust/src/flanterm.rs:1031-1054 | Cursor positioning goes to the row and column written, counted from one and kept on screen. |
| `EditingRuns.FunctionRun` | flanterm_rust/src/flanterm.rs:833-1308 | From its bytes, with one number or none, a cursor or editing function changes the screen as it should and no setting. |
| `EditingRuns.ForwardBackRun` | flanterm_rust/src/flanterm.rs:994-1005 | Forward and back by the same number: the screen is as before if the line did not end first. |
| `EditingRuns.InsertDeleteRun` | flanterm_rust/src/flanterm.rs:1129-1175 | Characters inserted and deleted again, from their bytes. |
| `EditingRuns.InsertDeleteLinesRun` | flanterm_rust/src/flanterm.rs:1055-1080 | Lines inserted and deleted again, from their bytes. |
| `ControlRuns.SmallMoves` | flanterm_rust/src/flanterm.rs:1628-1655 | Backspace, tab and carriage return: a tab goes to the next multiple of the tab size, or to the last column. |
| `ControlRuns.FeedCell` | flanterm_rust/src/flanterm.rs:1637-1645 | A line feed goes down a row; at the bottom margin the rows of the region move up instead; what every cell holds afterwards. |
| `ControlRuns.IndexRun` | flanterm_rust/src/flanterm.rs:1389-1418 | The bytes of the three index functions have the effect of the index functions. |
| `ControlRuns.ReverseCell` | flanterm_rust/src/flanterm.rs:1407-1418 | The reverse index goes up a row; at the top margin the rows of the region move down instead; what every cell holds afterwards. |
| `ControlRuns.IndexAsFeed` | flanterm_rust/src/flanterm.rs:1389-1406 | The index is a line feed as far as is seen, and the next line one that ends in the first column. |
| `ControlRuns.FeedAndBack` | flanterm_rust/src/flanterm.rs:1389-1418 | A line feed and a reverse index come back to the same screen unless a margin was met. |
| `ControlRuns.MarginRun` | flanterm_rust/src/flanterm.rs:1225-1240 | The bytes that set margins: the rows as they are written, and the cursor at home. |
| `ControlRuns.ModeRun` | flanterm_rust/src/flanterm.rs:690-741 | The bytes that set or reset wrapping and the origin mode change that mode, and the latter moves the cursor home. |
| `ControlRuns.ResetRun` | flanterm_rust/src/flanterm.rs:1380-1388 | The two bytes of a full reset: a blank screen in default colours, the cursor home, and every mode as at the start. |
| `ControlRuns.AlternateRun` | flanterm_rust/src/flanterm.rs:690-741 | Entering and leaving the alternate screen blank it; leaving makes attributes and colours plain. |
| `ControlRuns.LineDrawing` | flanterm_rust/src/flanterm.rs:1425-1468 | The box drawing bytes print the corners, lines and tees of code page 437, and no two bytes the same glyph. |
| `SequenceRuns.CancelledPrivate` | flanterm_rust/src/flanterm.rs:1510-1520 | Cancelling a private sequence leaves the terminal at rest with the private flag set. |
| `SequenceRuns.CancelMisleads` | flanterm_rust/src/flanterm.rs:1510-1520 | So the cursor does not go up where it would without the cancelled sequence. |
| `PrivateRuns.StepPrivate` | flanterm_rust/src/flanterm.rs:833-934 | The private flag after any byte: set by the byte that makes a sequence private, cleared by a reset or the end of a sequence, and by nothing else. |
| `PrivateRuns.PrivateAtRest` | flanterm_rust/src/flanterm.rs:1510-1520 | In every run of a fresh terminal, when it is at rest the private flag is set if and only if some private sequence was cancelled and no sequence has ended since it started. |
| `SaveRuns.StepSaved` | flanterm_rust/src/flanterm.rs:1310-1336 | Only a save or a reset changes what is saved. |
| `SaveRuns.SavePair` | flanterm_rust/src/flanterm.rs:1324-1336 | From rest, the save sequence stores the appearance (attributes, modes, character sets, cursor, colours) and leaves it as it is. |
| `SaveRuns.RestorePair` | flanterm_rust/src/flanterm.rs:1310-1322 | Outside sequences, the restore sequence makes the appearance what was stored, even when it interrupts a scalar, and keeps what is stored. |
| `SaveRuns.SaveRestore` | flanterm_rust/src/flanterm.rs:1310-1336 | A save, bytes none of which saves or resets, and a restore bring cursor, colours, attributes, modes and character sets back. |
| `SaveRuns.SaveTextRestore` | flanterm_rust/src/flanterm.rs:1310-1336 | That holds for every byte string without an escape character, even one that ends inside a scalar. |
| `TidyRuns.RunTidy` | flanterm_rust/src/flanterm.rs:1338-1423 | In every state of every run, control sequences and commands are only under way inside an escape sequence, and not both. |
| `TidyRuns.FreshRuns` | flanterm_rust/src/flanterm.rs:1338-1423 | So whether a terminal is at rest can be told from three fields. |
| `Utf8.DecodesExactly` | flanterm_rust/src/flanterm.rs:1522-1591 | From the idle state a byte sequence is accepted, as a whole, exactly when it is the encoding (section 4 of RFC 3629) of a scalar above the ASCII range, and the code point is that scalar. |
| `RunQueues.RunQueues.Fetch` | kernel_task/src/task/runqueue.rs:24-53 | The first task with the least pass leaves the queue, its pass advances by its stride modulo 2^64, and its flag is cleared. |
| `RunQueues.RunQueues.EnqueueReady` | kernel_task/src/task/runqueue.rs:95-111 | The task is added exactly when its flag is unset and it has not exited; the counter follows the queue; if every queued task had its flag set and none was queued twice, that still holds. |
| `RunQueues.RunQueues.MostLoaded` | kernel_task/src/task/runqueue.rs:126-138 | The first other processor with the most ready tasks. |
| `RunQueues.RunQueues.StealReady` | kernel_task/src/task/runqueue.rs:209-227 | Returns the first ready task among that many of the victim's, and puts those before it back. |
| `RunQueues.RunQueues.Steal` | kernel_task/src/task/runqueue.rs:140-170 | The queues of all processors, the passes, the flags and the task returned are those of a raid of that many tasks: the first ready one is kept, further ready ones join the local queue, others go back. |
| `RunQueues.RunQueues.FetchNextTask` | kernel_task/src/task/runqueue.rs:113-176 | The own queue's first least task if there is one; otherwise, if the victim's lock is free and the first of the most loaded other processors has two or more tasks, half of them are raided: its next task is returned if that is ready, and if all are ready exactly half move. No task is lost or duplicated. If every queued task had its flag set and none was queued twice, the flags are still right exactly when nothing was taken from another processor, or one ready task. |
| `RunQueues.RunQueues.FetchNextTaskTry` | kernel_task/src/task/runqueue.rs:178-231 | The same without waiting for locks and without moving tasks to the own queue; nothing changes when a lock is not obtained; the flags of queued tasks are still set exactly when the victim's next task was ready. |
| `RunQueues.RunQueues.TakeTurn` | kernel_task/src/task/runqueue.rs:20-53 | Fetching a task and adding it again is one turn of stride scheduling. |
| `RunQueues.QueuedTwice` | kernel_task/src/task/runqueue.rs:95-170 | Four ready tasks, one steal, and one wake-up of a stolen task: that task is queued twice. |
| `Stealing.RaidTasks` | kernel_task/src/task/runqueue.rs:140-170 | A raid of any length loses and duplicates no task. |
| `Stealing.RaidFirst` | kernel_task/src/task/runqueue.rs:140-170 | It returns the task that a search for one ready task would return. |
| `Stealing.RaidAllReady` | kernel_task/src/task/runqueue.rs:140-170 | When all are ready, the tasks drawn leave the victim in order; the first is returned and the others join the local queue. |
| `Stealing.SoughtReady` | kernel_task/src/task/runqueue.rs:209-227 | The search returns the victim's next task if that is ready, and nothing if none is. |
| `Stealing.FetchedFlags` | kernel_task/src/task/runqueue.rs:24-53 | Fetching keeps it so that every queued task has its flag set and none is queued twice. |
| `Stealing.EnqueuedFlags` | kernel_task/src/task/runqueue.rs:95-111 | So does adding a task whose flag is unset. |
| `Stealing.RaidFlags` | kernel_task/src/task/runqueue.rs:140-170 | A raid keeps the flags of queued tasks set exactly when it takes a single ready task. |
| `Stealing.SoughtFlags` | kernel_task/src/task/runqueue.rs:209-227 | The search does so exactly when the victim's next task is ready. |
| `Stride.PickUnique` | kernel_task/src/task/runqueue.rs:29-38 | The task picked is unique. |
| `Stride.RunClose` | kernel_task/src/task/runqueue.rs:24-53 | Over any run of turns without wrap-around, passes that start within the largest stride of each other stay so, and each pass is its start plus stride times dispatches. |
| `Stride.Proportional` | kernel_task/src/task/runqueue.rs:24-53 | From equal starts, dispatches weighted by stride never differ by more than the largest stride. |
| `Stride.RoundRobin` | kernel_task/src/task/runqueue.rs:24-53 | With equal strides and starts, dispatch counts never differ by more than one. |
| `Stride.NoStarvation` | kernel_task/src/task/runqueue.rs:24-53 | Every task is dispatched within a number of turns bounded by the number of tasks and the largest stride. |

## Left out

- MigratePage: says nothing about a huge page or huge flags, because only 4K pages of the reverse map are ever moved.
- MapPage: pages of the upper half, which all address spaces share, and pages that are not aligned are not covered.
- UnmapPage: the same holds for unmapping.
- Translate: the same holds for translation, of addresses in the upper half.
- The `push` operation of an address space and the lazy mapping of pages.
- TLB flushes and shootdowns, locks and interleavings, statistics counters.
- Boot-time placement of metadata and raw pointers: memory is indexed by frame number.
- FAT directory search, naming, long names (parts are joined in descending order, so names over 13 units do not come back),
  create, rename and delete; device errors.
- Pixel plotting, rotation, fonts, palettes, the Unicode tables: a cell is shown as a whole.
- The parameter slots that cursor functions use as scratch space: the next sequence clears them before they are read.
- Terminal callbacks to the host: bell, reports, operating system commands and LEDs.
- Timers, context switches, task creation and the wake-up paths around the run queues.
