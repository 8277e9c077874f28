# pnfs metadata: a verified model

The repository keeps a whole file system as fixed-size records in a key/value store. Directories, files, tags and
free IDs are linked structures of record IDs that nested loops edit in place. This project models that layer and the
dumper that reads it, and proves what the structures mean.

**Files.** A level of a file is empty, one data block, or a list of hash records that point to blocks, possibly null.
`FileShapes` gives it the meaning of a flat byte sequence; `FileWrite`, `FileRead` and `FileFree` prove the loops
against it. Reads are where the code falls short: the branch for a hole does not reset the offset in the block.
`FileRead.ReadExact` says exactly which reads that start in a hole are right on every file, and `Holes.WrongRead` makes
a failing file for each of the others with the operations of the file system.

**Directories.** Rows of hash buckets, each a chain of slot blocks with a high-water mark, stand for a map from names to
items (`DirShapes`, `DirLinks`, `Dirs`, `DirUpdate`, `DirMake`, `DirFree`). `DirList` and `DirScan` prove the scan and
the resumable iterator, `Readdir` the packed cookies and the batches, `Shrink` the offline compactor. A cookie has ten
bits for the bucket and 21 for the position in it: `Readdir.BackExact` says when a re-open falls back to entries read
before, `Readdir.ReadBatches` what that does to a reading.

**Tags.** Per-directory lists whose entries inherit through parent links. `TagValues` defines what a tag is worth;
`TagOps` and `TagLists` prove how each operation changes that; `Propagate` proves the recursive propagation.

**The whole store.** `Worlds` states that the records are the disjoint union of the footprints of the inodes and what
the inodes stand for. `FileSystems`, `FsFiles`, `FsDirs`, `FsReaddir` and `FsShrink` lift every operation to it,
`Namespace` and `FsOps` add the entries and the server's operations. `Meanings` states what each operation means for the
view and the tags, and what the bytes of a file are after any run; `Runs` proves that every step of every run has its
meaning and keeps the invariant; `Trees` proves when every inode has exactly one name and when the directories form trees.

**IDs and records.** `IdArithmetic` proves the allocator over any interleaving of handles, `Codec` the suppression of
trailing zeros.

**The dumper.** `CacheLists` and `DumpCache` prove the hash-chained cache against the database, `DumpWalk` the
depth-first walk that drives it, `DumpServer` and `DumpTree` join both to the file system; `DumpEvents` proves
which events a dump reports, each exactly once. `Md5` proves the streaming digest against RFC 1321, `Md5Answers` two of
its known answers, `Escape` the bytea escaper.

Sizes that depend on the record layout (bytes per block, pointers per hash record, buckets, slots per block, bytes per
tag) are symbolic and positive; with the 128 buckets of `MD_HASH_SIZE` and fewer than 896 IDs per hash record
`FsReaddir.SmallTables` holds. An ID is the number its three words spell. Store operations succeed, and the locks do
nothing, as in `fs/db_gdbm-easy.c`, so what an aborted operation has already written stays; the contracts of the
operations say where that shows. The linked lists of the cache are sequences, newest first.

Where the code and the obvious intention differ, the contracts follow the code: the hole branch of the read
(`FileRead`), the negative copy of a small read past the end (`FileRead.ReadDataLowSmall`), the rename that answers
MDEpanic1 and leaves the item with both names (`FsOps.Rename`), the rename of a directory to a place below itself
(`Trees.LoopedRename`), the removal of a file whose name is a directory's (`FsOps.RemoveFile`), the directory made under
an empty name (`FsOps.MakeDirectory`), the link whose path does not fit (`FsOps.MakeLink`), the directory cookie that
wraps (`Readdir.Overfull`), and the promoted tag value that loses its last byte when it fills the inode
(`DumpCache.ClipTerminated`).

## Model

| member | source | states |
|---|---|---|
| Stores.Store.NewId | dbfs/md2lib.c:3421-3439 | The next ID of the handle: a multiple of 8, at the old bound; the bound moves on by 8. |
| Stores.Store.Delete | dbfs/md2io.c:224-232 | The record with this ID is gone, no other record changes. |
| FileWrite.WriteFlatAt | dbfs/md2lib.c:1038-1070 | What a write to a flat file leaves at each address: the bytes written in place, the old ones elsewhere, zeros in the gap. |
| FileWrite.WriteThenSlice | dbfs/md2lib.c:1038-1070 | Reading back what was written gives the bytes written; what a read of a flat file gives in every case. |
| FileShapes.LevelFrame | dbfs/md2lib.c:1602-1631 | A level depends on its own records only. |
| FileShapes.AppendHash | dbfs/md2lib.c:1141-1156 | A new, empty hash record at the end of the chain changes no byte of the level. |
| FileShapes.FillHole | dbfs/md2lib.c:1165-1172 | A new zero block in a hole changes no byte of the level. |
| FileShapes.OverwriteBlock | dbfs/md2lib.c:1177-1182 | Copying into one block changes exactly the addresses of the copy. |
| FileWrite.WriteDataLow | dbfs/md2lib.c:1038-1070 | Through every form of a level (empty, one block, upgrade, hash chain): contents become `WriteFlat` of the old contents and all the bytes given; a level other than 0 refuses offsets from 4093 on and takes no more than fits into 4096 bytes; every byte stored at or past the end is zero; exactly the level's own records change and fresh ones are added; the blocks are the old ones and those the write touches, so the places it skips stay holes. |
| FileWrite.WriteDataLowUpgrade | dbfs/md2lib.c:1071-1090 | The single block becomes the first block of a new hash record; the contents stay the same. |
| FileWrite.WriteDataLowSmall | dbfs/md2lib.c:1091-1116 | The write into the single block refines `WriteFlat`. |
| FileWrite.WriteDataLowLarge | dbfs/md2lib.c:1117-1199 | The walk over the hash chain, which it extends and whose holes it fills where the write touches them, refines `WriteFlat`; a zero-length write to an empty level changes the recorded size alone. |
| FileWrite.WriteRow | dbfs/md2lib.c:1158-1187 | The block loop: from any start it advances to the end of the write or of the hash record, and the bytes up to there are in place. |
| FileWrite.WriteBlock | dbfs/md2lib.c:1165-1184 | One pass of the block loop: the part of the write that falls into this block is in place; a hole gets a zero block first. |
| FileWrite.NextHash | dbfs/md2lib.c:1140-1157 | The head of the hash loop: hash record number `thisHash` is in hand, a new one linked to its predecessor where the chain ended. |
| FileWrite.StartPosition | dbfs/md2lib.c:1125-1131 | The hash record, block and byte at which an offset lies: the decomposition is exact. |
| FileWrite.WrittenContents | dbfs/md2lib.c:1188-1193 | Once every byte is in place the level holds the flat file after the write, and nothing but zeros past its end. |
| FileRead.ReadDataLow | dbfs/md2lib.c:1349-1371 | A read delivers exactly the slice of the contents, clipped at the end, whenever the block loop stays in step, and what the walk of the code delivers in every case; a negative copy happens exactly for a one-block level with `entries < off < block size`. |
| FileRead.ReadDataLowSmall | dbfs/md2lib.c:1372-1386 | The slice of the block; when the copy is negative is stated as an if-and-only-if. |
| FileRead.ReadDataLowLarge | dbfs/md2lib.c:1404-1470 | The hash-chain read is the block walk in which a hole does not reset the offset in the block. |
| FileRead.ReadRow | dbfs/md2lib.c:1438-1458 | The block loop over one hash record delivers its part of that walk. |
| FileRead.ReadBlock | dbfs/md2lib.c:1447-1457 | One pass of the block loop; over a hole the offset and the rest of the block keep their values. |
| FileRead.ReadWalkFlat | dbfs/md2lib.c:1404-1470 | A walk in step delivers the bytes of the flat file from its address on. |
| FileRead.AfterHole | dbfs/md2lib.c:1447-1457 | After a hole the next block of the same row is read from the old offset on, not from its start. |
| FileRead.HoleReadWrong | dbfs/md2lib.c:1447-1457 | Where the condition fails the read goes wrong: for every layout, offset and length outside it, a level of records the allocator issues on which the result differs from the flat file. |
| FileRead.ReadExact | dbfs/md2lib.c:1404-1470 | The exact condition: reading `n` bytes at `off` is right on every level whose first block is a hole if and only if the offset is block-aligned, the read ends in that block, or that block is the last of its hash record. |
| Holes.HoleAnswer | dbfs/md2lib.c:1447-1457 | On every level to which only the block behind a hole was written, a read that starts inside the hole and goes on misses the byte written. |
| Holes.WrongRead | dbfs/md2lib.c:1117-1470 | For every layout, offset and length outside the condition: a file made in a new file system by making a directory and a file and writing once, whose read differs from the slice of its contents. |
| FileFree.DeleteChain | dbfs/md2lib.c:1602-1631 | Afterwards the store is the old one without exactly the records of this level, whatever its form. |
| FileFree.DeleteHashes | dbfs/md2lib.c:1614-1626 | The loop over the hash chain frees every hash record and every block, and nothing else. |
| FileFree.DeleteRow | dbfs/md2lib.c:1620-1622 | The inner loop frees the blocks of one hash record. |
| DirShapes.BucketInRange | dbfs/md2lib.c:3250-3278 | The row and the column computed from a name hash are always in range of the hash rows. |
| DirShapes.NameSumStep | dbfs/md2lib.c:1813-1822 | Each character of a name counts as often as its prime number says, which repeat after eleven characters. |
| DirShapes.DirFrame | dbfs/md2lib.c:3040-3089 | A directory depends on its own records only. |
| DirShapes.PutItem | dbfs/md2lib.c:3198-3205 | A new name in a free slot of its bucket is an insertion into the map; all chains and marks stay well-formed. |
| DirShapes.DropItem | dbfs/md2lib.c:2946-2961 | Clearing the slot of a name is a removal from the map; the lowered high-water mark still bounds the live slots. |
| DirLinks.AppendBlock | dbfs/md2lib.c:3206-3215 | A new block at the end of a chain keeps the directory and its map. |
| DirLinks.UnlinkBlock | dbfs/md2lib.c:2962-2979 | Taking an empty block out of any place of its chain, whose predecessor takes over its link, keeps the directory and its map; exactly that record goes. |
| Dirs.HushFunc0 | dbfs/md2lib.c:1813-1822 | The sum of the characters, weighted by the first eleven primes in turn, modulo the table size; -1 for the empty name. |
| Dirs.GetDirectoryInfos | dbfs/md2lib.c:3250-3278 | The row record and the column that hold the bucket of a name, and the three errors; on a well-formed directory the range checks that answer MDEpanic1 never fire. |
| Dirs.SearchChain | dbfs/md2lib.c:2776-2792 | The chain loop finds a name exactly if the map has it, and then its block, its slot and the block before it. |
| Dirs.FindInBlock | dbfs/md2lib.c:2780-2786 | The slot loop: the first live slot below the high-water mark with this name. |
| Dirs.FindDirectoryEntry | dbfs/md2lib.c:2759-2805 | Lookup in the map, with the exact errors. |
| Dirs.RemoveFromDirectory | dbfs/md2lib.c:2902-2997 | Removal from the map: the item removed is returned, the count drops by one, the block is unlinked and deleted exactly if it held no other name, and no other record changes; the protected directory, the missing name and the bad IDs are refused without a change. |
| Dirs.RemoveHit | dbfs/md2lib.c:2946-2979 | Clearing the slot, and unlinking the block exactly if no other name is in it, is removal from the map. |
| Dirs.UnlinkHit | dbfs/md2lib.c:2962-2979 | The link to the emptied block, in the row or in the block before, takes over its successor; the block is deleted. |
| Dirs.HighWaterBounds | dbfs/md2lib.c:2949-2956 | Lowering the mark over trailing empty slots keeps every live slot below it. |
| Dirs.AddToDirectory | dbfs/md2lib.c:3163-3229 | Adding an absent name is insertion into the map, and the count grows by one; a block is added only when every slot of the bucket is taken; only the directory's records change, by fresh records alone. |
| Dirs.FindSpace | dbfs/md2lib.c:3185-3197 | The chain loop: the first block with room and its first empty slot, or the last block of a full chain. |
| Dirs.EmptySlot | dbfs/md2lib.c:3188-3193 | The slot loop: the first empty slot below the high-water mark, or the mark if there is none. |
| Dirs.EnsureFirst | dbfs/md2lib.c:3174-3184 | The first block of an empty bucket is made and linked to its row. |
| Dirs.ExtendChain | dbfs/md2lib.c:3206-3216 | When every block is full the item goes to a new block at the end of the chain. |
| DirUpdate.UpdateDirectoryEntry | dbfs/md2lib.c:2806-2852 | The map has the new item under the same name; all records but one block are untouched. |
| DirList.ScanDirectory | dbfs/md2lib.c:2709-2758 | The loop nest over rows, columns, blocks and slots yields the listing. |
| DirList.ListingComplete | dbfs/md2lib.c:2709-2758 | The listing has no name twice, and its names and items are exactly those of the map. |
| DirList.CountDirectoryEntries | dbfs/md2lib.c:201-243 | The number of live slots is the size of the map and equals the count kept in the inode. |
| DirScan.DirHandle.Next | dbfs/md2dirs.c:196-259 | The iterator returns the current entry and moves to the next live slot: it takes one entry off the rest of the scan, and reports the end exactly when nothing is left. |
| DirScan.DirHandle.Advance | dbfs/md2dirs.c:210-245 | The row loop stops at the second live slot from the current one on, with the first in hand. |
| DirScan.DirHandle.NextInChain | dbfs/md2dirs.c:221-242 | The chain loop, resumed inside a block or started at the head of a chain. |
| DirScan.DirHandle.Seek | dbfs/md2dirs.c:109-194 | Opening at a position of a bucket that has a live slot at or behind it leaves the entries from that slot on; opening at the start leaves all of them; a row index past the table leaves none. |
| DirScan.DirHandle.SeekInChain | dbfs/md2dirs.c:149-171 | The chain loop of the re-open reaches the block and slot of a position. |
| DirScan.FromListing | dbfs/md2dirs.c:196-259 | From any position, the entries before it and those from it on make up the listing. |
| DirScan.FromBetween | dbfs/md2dirs.c:196-259 | Going on from an earlier position of a bucket gives the live slots between the two positions again, and then what is left from the later one. |
| DirScan.FromLive | dbfs/md2dirs.c:196-259 | From the position of the n-th live slot on come exactly the live slots after it. |
| Readdir.PackExact | dbfs/md2dirs.c:35-40 | A cookie survives packing into 32 bits if and only if its hash and position fit their fields; what it becomes otherwise. |
| Readdir.TableFits | dbfs/md2dirs.c:35-40 | The bucket numbers of a directory, and the number that stands for its end, fit the cookie if and only if table size and row length are small enough together, as those compiled in are. |
| Readdir.BackExact | dbfs/md2dirs.c:35-60 | Re-opening at the cookie of a live slot is right if and only if the position fits, or no slot between the wrapped position and the real one is live. |
| Readdir.ShortChains | dbfs/md2dirs.c:35-40 | Where every chain fits the position field, no re-open falls back. |
| Readdir.Overfull | dbfs/md2dirs.c:35-40 | In a bucket with more live slots than the field can tell apart, re-opening at the last one gives entries again. |
| Readdir.DirOpen | dbfs/md2dirs.c:42-60 | At the cookie handed out for item `n`, reading goes on with item `Back(n)`, whether or not the position fits its field. |
| Readdir.NextEntry | dbfs/md2dirs.c:61-98 | The next entry of the stream, and the cookie handed out for the one behind it. |
| Readdir.Prologue | dbfs/md2dirs.c:70-88 | `".."` first, then `"."`, with the cookies that continue; any other position of the prologue gives an empty item and does not move. |
| Readdir.ReadBatch | dbserver/dbserver.c:1257-1287 | A batch of at most `count` items: the next items of the stream from where the cookie leads, in order, each with its cookie; shorter only at the end. |
| Readdir.ReadBatches | dbserver/dbserver.c:1257-1287 | Any number of batches of any size: what was read is the beginning of the directory if and only if no re-open so far fell back. |
| Readdir.ReadAll | dbserver/dbserver.c:1257-1287 | For every batch size, re-opening at the last cookie until a batch is empty yields `".."`, `"."`, then every live entry in scan order, once, and ends, where no re-open falls back. |
| FsReaddir.TablesFit | dbfs/md2ptypes.h:24 | In a file system the sizes compiled in decide whether the bucket numbers of any directory fit the cookie. |
| FsReaddir.StreamReads | dbfs/md2dirs.c:61-98 | What a directory of the file system reads as: `".."`, `"."`, and every entry of the view exactly once. |
| FsReaddir.ReadDirectory | dbserver/dbserver.c:1257-1287 | Reading a directory of the file system in batches of any size yields that, where no re-open falls back; the exact errors. |
| FsReaddir.ReadSome | dbserver/dbserver.c:1257-1287 | The first batches are its beginning if and only if no re-open so far fell back. |
| DirMake.TableCovered | dbfs/md2lib.c:333-351 | The rows a new directory gets have a place for every hash value. |
| DirMake.TableExact | dbfs/md2lib.c:333-351 | Every bucket of those rows is the place of exactly one hash value. |
| DirMake.MakeRows | dbfs/md2lib.c:339-351 | The row loop makes exactly these rows, all empty, from fresh records. |
| DirMake.MakeNewDirectory | dbfs/md2lib.c:294-363 | A fresh inode with its rows, no entries and no tags, under its parent, whose protection flags it takes over. |
| DirFree.RemoveTags | dbfs/md2tags.c:353-380 | Exactly the tags of the list are deleted, and the inode points to none. |
| DirFree.DeleteRows | dbfs/md2lib.c:3062-3079 | The loop nest frees exactly the rows and blocks of the table. |
| DirFree.DeleteDirectory | dbfs/md2lib.c:3040-3089 | An empty directory goes with its inode, rows, blocks and tags, and nothing else changes; a directory with entries is refused. |
| Shrink.ShrinkChain | dbfs/md3tool.c:540-602 | One bucket chain becomes its blocks in use, in order, whatever runs of empty blocks it starts with, contains or ends with; the map stays. |
| Shrink.ShrinkDirectory | dbfs/md3tool.c:495-613 | Every chain becomes its blocks in use, exactly the other blocks are deleted, and the directory has the same map and the same count. |
| FsShrink.CompactDirectory | dbfs/md3tool.c:495-613 | On the whole store: every inode stands for what it stood for, every tag keeps its value, records are only given up, and the partition is kept. |
| TagValues.WriteValue | dbfs/md2tags.c:285-335 | Giving a tag a value of its own changes the value of exactly the tags whose chain reaches it uncut. |
| TagValues.InheritValue | dbfs/md2tags.c:381-411 | Letting a tag inherit gives exactly the tags whose chain reaches it the value of its parent. |
| TagValues.WriteRemoveRestores | dbfs/md2tags.c:381-411 | A tag that inherited, was cut and inherits again: every tag has its old value and top tag. |
| TagValues.ValueFrame | dbfs/md2tags.c:476-530 | New tags that are no stored tag's parent change no value. |
| TagOps.GetTopTag | dbfs/md2tags.c:203-231 | The tag a tag resolves to; the loop ends because parents are older. |
| TagOps.GetTopTagByRec | dbfs/md2tags.c:232-264 | The same from a record in hand, which may be the answer itself. |
| TagOps.UnChain | dbfs/md2tags.c:175-202 | The tag stops inheriting; it fails exactly when the chain leads nowhere. |
| TagOps.UnChainValues | dbfs/md2tags.c:154-202 | Un-chaining brings back the bytes the tag had of its own, for exactly the tags whose chain reaches it. |
| TagOps.WrittenTag | dbfs/md2tags.c:285-335 | What a write leaves in a tag: the bytes before the offset, then those written as far as they fit; own value, no flags. |
| TagOps.WriteTag | dbfs/md2tags.c:265-335 | The record becomes that; a write behind the end changes nothing, and the write fails exactly when the tag inherits from nowhere. |
| TagOps.WriteTagValues | dbfs/md2tags.c:285-335 | Writing at any offset: exactly the tags whose inheritance chain reaches this one uncut are worth the bytes before the offset and those written, as far as they fit; all others are unchanged. |
| TagOps.RemoveTagValues | dbfs/md2tags.c:381-411 | Removing: the tags whose chain reaches it are worth what its parent is worth, or nothing without a parent; all others are unchanged. |
| TagOps.RemovedIsEmpty | dbfs/md2tags.c:381-411 | A removed tag keeps no bytes of its own: its length is 0, and un-chained it and the tags that reach it are worth no bytes. |
| DumpCache.RemovedReads | dbfs/md2tags.c:381-411 | Of a removed tag without a parent the dumper reads no bytes. |
| TagOps.Classes | dump/dump_tag.c:25-49 | The class of a tag follows from its parent link and its inherited flag. |
| TagOps.WriteThenRemove | dbfs/md2tags.c:381-411 | Removing a previously inherited tag after writing it restores the value of every tag. |
| TagOps.ReadTag | dbfs/md2tags.c:531-576 | The slice of the resolved value, and the cases in which nothing or a negative length is copied. |
| TagOps.NeverInvalid | dump/dump_tag.c:25-49 | Inherited and invalid never coexist, so the dumper's class INVALID is unreachable; the class INHERITED is exactly that of the tags that resolve to another one. |
| TagLists.FindTag | dbfs/md2tags.c:446-474 | The first tag whose kept characters are those of the name, or none has them. |
| TagLists.AddTagToDirectory | dbfs/md2tags.c:762-805 | The tag becomes the last of the list, its predecessor or the inode points to it, and no other record changes; a taken name is refused. |
| TagLists.AddNewTag | dbfs/md2tags.c:724-761 | A new tag with a parent inherits, one without has a value of its own; the exact errors. |
| TagLists.DuplicateTags | dbfs/md2tags.c:476-530 | A list of fresh tags of the same length, order and names, each stored with its final link and its original for a parent; the source and all other records are untouched. |
| TagLists.DuplicatedValues | dbfs/md2tags.c:476-530 | Every duplicate resolves to what its original resolves to, and every stored tag keeps its value. |
| TagLists.NewTagsInv | dbfs/md2tags.c:724-805 | New tags whose parents are stored keep the invariant (older parents, flags that never coexist) and all values. |
| Worlds.DisjointUnion | dbfs/md2lib.c:3040-3089 | No leak and no dangling pointer: the stored records are the union of the footprints of the inodes (rows, blocks, tags, data chains), and no two footprints meet. |
| Worlds.AfterSettled | dbfs/md2lib.c:1564-1674 | An operation that replaces the records of one inode keeps the partition and what every other inode stands for. |
| Worlds.ShapeFrame | dbfs/md2lib.c:1632-1675 | An inode's form and meaning depend on its footprint only. |
| FileSystems.NewDirectory | dbfs/md2lib.c:294-363 | A directory no entry leads to yet; nothing else changes. |
| FileSystems.AddEntry | dbfs/md2lib.c:3163-3229 | On the whole store: one directory has one more entry, every other inode and every tag value stays. |
| FileSystems.RemoveEntry | dbfs/md2lib.c:2902-2997 | On the whole store: one directory has one entry less; the exact errors leave the store alone. |
| FileSystems.CopyTags | dbfs/md2tags.c:476-530 | On the whole store: the target gets a list that mirrors the source in names and values. |
| FileSystems.AddTag | dbfs/md2tags.c:724-805 | On the whole store: one more tag in one list, with its parent's value or the empty one. |
| FileSystems.WriteTagData | dbfs/md2tags.c:265-335 | On the whole store: one record has the bytes before the offset and those written as far as they fit, keeps the rest, and inherits no more; no inode changes, and the tags that reach it have these bytes for a value. |
| FileSystems.RemoveTagData | dbfs/md2tags.c:381-411 | On the whole store: one record has no bytes of its own and inherits if it has a parent; the tags that reach it have the value of its parent, or none. |
| FileSystems.UnChainTagData | dbfs/md2tags.c:154-202 | On the whole store: one record changes, no inode does, and the values change as `UnChainValues` says. |
| FsFiles.WriteFile | dbfs/md2lib.c:972-998 | One level of one file becomes the flat file after the write of all the bytes given (of those that fit into 4096 bytes for levels other than 0); the seven others, every other inode and every tag stay. |
| FsFiles.TruncateFile | dbfs/md2lib.c:1564-1601 | The level is empty and exactly its records are freed. |
| FsFiles.NewFile | dbfs/md2lib.c:1698-1756 | A file inode with eight empty levels. |
| FsFiles.NewLink | dbfs/md2lib.c:1757-1803 | A link inode with eight empty levels. |
| FsFiles.WriteLink | dbfs/md2lib.c:2165-2200 | The path of one level is replaced, in place if there was one; a path that does not fit is refused. |
| FsFiles.DeleteFile | dbfs/md2lib.c:1632-1675 | A file or link goes with exactly its own records; other records are refused. |
| FsDirs.SeveredValue | dbfs/md2tags.c:353-380 | Deleting tags: the tags whose chain leads through one of them have no value any more, all others keep theirs. |
| FsDirs.DeleteDir | dbfs/md2lib.c:3040-3089 | An empty directory goes with exactly its footprint. |
| FsDirs.ChangeParent | dbfs/md2lib.c:176-199 | The parent of one inode changes and nothing else. |
| FsDirs.ModFlags | dbfs/md2lib.c:870-903 | The protection of a directory: the flags under the mask are taken over, nothing else changes; files are accepted, everything else is refused. |
| Namespace.RenameMovesOne | dbserver/dbserver.c:1427-1435 | A rename moves exactly one item: the new name finds the same ID, the old name is absent, every other lookup and every other parent is unchanged, and every entry still names an inode that knows its directory. |
| Namespace.RenameKeeps | dbserver/dbserver.c:1427-1435 | A rename changes no more of any inode than the two entry maps and one parent. |
| Namespace.RenameCounts | dbserver/dbserver.c:1427-1435 | The counts: the same within one directory, one less and one more across two. |
| FsOps.Lookup | dbfs/md2lib.c:2759-2805 | Lookup of an ordinary name in the abstract view. |
| FsOps.MakeTop | dbfs/md2lib.c:1894-1922 | The root branch of md2MakeDirectory: a directory no other directory leads to. |
| FsOps.MakeDirectory | dbserver/dbserver.c:1041-1072 | A directory with its entry, mirroring the tags of its parent and taking over its protection; exact errors, in order; an empty name leaves just the directory, without an entry. |
| FsOps.MakeFile | dbserver/dbserver.c:1288-1366 | A file with eight empty levels and its entry; exact errors change nothing. |
| FsOps.CreateFile | dbserver/dbserver.c:1297-1344 | Both branches: a new name becomes a file; an existing one answers its ID, and its level is emptied first if so asked; a name that is no file is refused then. |
| FsOps.MakeLink | dbserver/dbserver.c:1448-1490 | A link with its path in one of eight levels and its entry; exact errors; a path that does not fit leaves the link without one. |
| FsOps.RemoveFile | dbfs/md2lib.c:1471-1563 | The entry goes, then the file or link with its records; if the name is a directory's, the entry is gone and the directory stays. |
| FsOps.RemoveDirectory | dbfs/md2lib.c:2998-3039 | Succeeds exactly for an empty directory in a directory that allows removal; the entry goes, and with it the directory, unless it is an entry only. |
| FsOps.Rename | dbserver/dbserver.c:1367-1447 | The answer in every case, in the order of the checks, and what the view is when it succeeds; every refusal leaves the store alone; MDEpanic1 is answered exactly when the source directory forbids removal, and the item then has both names. |
| FsOps.WriteData | dbfs/md2lib.c:972-998 | Writing to a file keeps the invariant and is `WriteFlat` of all the bytes given on level 0, and of those that fit into 4096 bytes on the others; the blocks are the old ones and those the write touches. |
| FsOps.ReadData | dbfs/md2lib.c:1200-1227 | Reading a file of the file system is the slice of its flat contents under the exact read condition, and what the walk delivers in every case. |
| FsOps.Truncate | dbfs/md2lib.c:1564-1601 | The level of a file is empty afterwards; a tag is un-chained, with the effect on all values; other records are refused. |
| FsOps.AddNewTag | dbfs/md2tags.c:745-762 | One more tag with an empty value of its own; the exact errors. |
| Runs.Step | dbserver/dbserver.c:1041-1490 | Every operation has exactly its meaning for the view and the tags, and keeps the invariant but for the rename that answers MDEpanic1, and when that is. |
| Runs.Run | dbserver/dbserver.c:1041-1490 | Over every run of operations from the empty store: the records are the disjoint union of the inodes' records, directories are name maps with exact counts, tags inherit from older tags, and every entry names an inode whose parent is its directory; each state of the run is the meaning of an operation on the one before. |
| Meanings.LevelOverRun | dbfs/md2lib.c:1038-1601 | Over any part of a run in which a file is there, the bytes of a level are those its writes and truncations leave, in order; no other operation bears on them. |
| Trees.TidyStep | dbserver/dbserver.c:1041-1490 | Exactly the orderly operations leave no inode without an entry: all but a directory made under the empty name and a directory removed as a file. |
| Trees.TidyRun | dbserver/dbserver.c:1041-1490 | Over a run of orderly operations every inode but the top directories has an entry. |
| Trees.NamedOnce | dbserver/dbserver.c:1041-1490 | Where that holds, every inode but the top directories is named by exactly one entry, in the directory it knows as its parent, which is there. |
| Trees.ReparentForest | dbfs/md2lib.c:176-199 | Giving an inode another parent keeps every inode under a top directory if and only if that parent does not lie below it. |
| Trees.ForestStep | dbserver/dbserver.c:1367-1447 | Exactly the renames of a directory to a place below itself, which dbs_rename does not refuse, take inodes out from under the top directories. |
| Trees.ForestRun | dbserver/dbserver.c:1041-1490 | Over a run of orderly operations without such renames the directories form trees under the top directories. |
| Trees.LoopedRename | dbserver/dbserver.c:1367-1447 | Such a rename in a new file system: two directories that contain each other, out of reach of any top directory. |
| Propagate.Visit | dbfs/md2tags.c:685-722 | One directory: it gets the tag, inherited from the containing directory's, and is walked, unless it has the tag. |
| Propagate.Walk | dbfs/md2lib.c:2709-2758 | All subdirectories of a directory are treated; the recursion ends. |
| Propagate.ExactlyReached | dbfs/md2tags.c:659-722 | The directories that got the tag are exactly those reached without crossing one that already had it. |
| Propagate.PropagateTag | dbfs/md2tags.c:659-684 | Exactly those directories get one inherited tag, parented to the tag in their containing directory, and resolve to the source value; every stored tag keeps its value. |
| IdArithmetic.AddId | dbfs/md2ptypes.h:187-189 | The multi-word addition with carry is addition modulo 2 to the 80. |
| IdArithmetic.SpecialLossless | dbfs/md2ptypes.h:181-183 | Setting and clearing the special bits gives the ID back if and only if it is a multiple of 8. |
| IdArithmetic.Allocator.GetIdRange | dbfs/md2io.c:178-206 | A range from the root's counter on, which moves past it; a bad range empties the handle. |
| IdArithmetic.Allocator.GetNextId | dbfs/md2lib.c:3421-3439 | The ID was never issued before by any handle, is a multiple of 8 and below the counter. |
| IdArithmetic.Allocator.Reopen | dbfs/md2io.c:73-110 | A re-open discards the cached range and leaves the counter alone. |
| IdArithmetic.Interleave | dbfs/md2lib.c:3421-3439 | For every interleaving of handles and re-opens, until the counter would wrap, no ID is issued twice and all are multiples of 8. |
| Codec.SuppressZero | dbfs/md2io.c:429-443 | The least multiple of 4 from which on the body is zero. |
| Codec.PutBody | dbfs/md2io.c:332-384 | The stored prefix: nothing but zeros of the type's body is left off, and only of directory hash rows and file data, of which at least 512 bytes are stored. |
| Codec.RoundTrip | dbfs/md2io.c:385-428 | Filling with zeros gives the body back if and only if it is zero past the size of its type. |
| Codec.PutThenGet | dbfs/md2io.c:332-428 | Get after put, for all type combinations: the bytes below the size of the structure stored for the type come back, and the whole body exactly if nothing but zeros follows them. |
| CacheLists.FirstInBucket | dump/dump_cache.c:594-640 | The first match in one bucket is the newest entry for the ID in the whole table. |
| CacheLists.FirstIs | dump/dump_cache.c:618-640 | The entry found is the newest one for the ID, and there is none if none is found. |
| CacheLists.DropIs | dump/dump_cache.c:680-726 | Removing takes exactly the newest entry for the ID. |
| CacheLists.DropInBucket | dump/dump_cache.c:680-726 | Delinking an entry changes one bucket, and there only that entry. |
| CacheLists.PopFrame | dump/dump_cache.c:680-726 | Removing a directory with its tags, which recurses into remove_info, removes exactly what was stored since it was entered. |
| CacheLists.PushTag | dump/dump_cache.c:143-182 | Storing a tag for the deepest directory adds it to the table and to the tag array of that directory. |
| CacheLists.CalcHash | dump/dump_cache.c:820-862 | A bucket number below the number of buckets. |
| CacheLists.HashKnown | dump/dump_cache.c:820-862 | Hash values of three IDs, written out; equal bytes of an ID cancel. |
| DumpCache.Cache.FindInfo | dump/dump_cache.c:618-640 | The newest entry for an ID. |
| DumpCache.Cache.StoreInfo | dump/dump_cache.c:594-611 | One more entry, in front of all others, whatever is there. |
| DumpCache.Cache.RemoveInfo | dump/dump_cache.c:680-726 | The newest entry for an ID goes, with a directory also its tags; the recursion ends. |
| DumpCache.Cache.StoreTag | dump/dump_cache.c:143-182 | A tag entry and one more element in its directory's tag array; nothing without an entry for the directory. |
| DumpCache.Cache.GetTagParent | dump/dump_cache.c:216-246 | The cached parent, or the one in the database. |
| DumpCache.Cache.GetTagIdByName | dump/dump_cache.c:735-778 | An answer from the cache is the answer of the database. |
| DumpCache.Cache.GetTagId | dump/dump_cache.c:261-316 | In every cache state that agrees with the database, and with the cache off, the ID is the one the database walk finds. |
| DumpCache.Cache.FindTagValue | dump/dump_cache.c:486-579 | In every such state the value and its length are those of the database, although orphaned tags are cached as primary ones with resolved values; for a value that fills the inode, as far as the caller's buffer is no larger than the inode. |
| DumpCache.ClipTerminated | dump/dump_main.c:785-857 | When a promoted value reads like the real one: if and only if it is shorter than the inode, the buffer is no larger than the inode, or its last byte is zero. |
| DumpCache.ServerValue | dbfs/md2tags.c:203-264 | For tags that do not resolve to an invalid one the dumper's value is the server's. |
| DumpServer.ServerStore | dbfs/md2tags.c:762-805 | Every store the file system makes meets what the dumper relies on: older parents, proper tag lists with unique names. |
| DumpServer.TagValueOf | dump/dump_cache.c:486-579 | On such a store, whatever the cache holds, the value is the one md2ReadTag resolves to, cut to the caller's buffer, and the length that of the whole value. |
| DumpTree.ReadListings | dump/dump_di_readdir.c:47-128 | The directory iterator with read-ahead, on every directory of a file system: each reads as its stream. |
| DumpTree.TreeReaches | dump/dump_main.c:559-592 | The tree of a walk has exactly the directories its root leads to in the view. |
| DumpTree.DumpComplete | dump/dump_main.c:559-729 | A dump that the serialiser does not stop begins exactly the directories the top leads to. |
| DumpTree.TreeExists | dump/dump_main.c:559-592 | Where the directories form trees under the top directories, what is below any directory is a finite tree, as the walk needs to end. |
| DumpTree.Dump | dump/dump_main.c:502-592 | A dump of a file system: the events are those of the tree its directories form, begin and end are nested, and the cache is empty at the end. |
| DumpEvents.StoredIsDue | dump/dump_main.c:785-957 | What is reported for a tag, from its parent link, its inherited flag and whether the parent is in the dumped tree: kind, parent and bytes. |
| DumpEvents.DumpExact | dump/dump_main.c:502-957 | A dump that nothing stops reports exactly once, and nothing besides: begin and end of every directory and file below the top, every link, and every tag of these directories if tags are wanted. |
| DumpEvents.InOrder | dump/dump_main.c:559-592 | What an item gives rise to is reported before anything a later item of the directory gives rise to. |
| DumpEvents.FullDump | dump/dump_main.c:502-592 | The same of the dump of a file system whose directories form trees: how often each event occurs, in terms of the view and the records. |
| DumpWalk.PathCoherent | dump/dump_main.c:689-729 | A table that holds the path of the walk and the tags stored for it agrees with the database. |
| DumpWalk.EntryOk | dump/dump_main.c:785-857 | What is stored for a tag, promoted or not, agrees with the database. |
| DumpWalk.Walker.Emit | dump/dump_serialiser.h:189-190 | At every call of the serialiser the table holds exactly the directories begun and not ended and the tags stored for them. |
| DumpWalk.Walker.ProcessTag | dump/dump_main.c:785-957 | The tag is stored and reported as its kind and its place in the dumped tree decide; an orphan without a value is neither. |
| DumpWalk.Walker.ScanAllTags | dump/dump_main.c:735-773 | Every tag of the list, in order. |
| DumpWalk.Walker.ProcessOther | dump/dump_main.c:605-676 | A file is begun, and ended if the serialiser takes it; a link is reported; anything else, and what cannot be read, is skipped. |
| DumpWalk.Walker.ProcessDir | dump/dump_main.c:689-729 | Without an error the table is afterwards what it was before, and the events are those of the whole subtree, begun and ended; of a directory the serialiser skips, just these two. |
| DumpWalk.Walker.ScanDirectory | dump/dump_main.c:559-592 | Every item of the listing, in order; the recursion over a finite tree ends. |
| DumpWalk.Walker.Process | dump/dump_main.c:502-555 | If no call of the serialiser before the last one fails, the events are those of the tree, begin and end are nested, and every bucket is empty at the end. |
| Md5.Transform | dump/md5.c:172-270 | The 64 unrolled macro calls, with their words, shifts and constants, are the 64 steps of section 3.4 of RFC 1321 and the final additions. |
| Md5.StepRound1 | dump/md5.c:63-67 | One macro of round 1 is one step; the registers change places. |
| Md5.CountAdds | dump/md5.c:108-112 | The two-word bit count after more bytes is 8 times the length modulo 2 to the 64, carry included. |
| Md5.CountFill | dump/md5.c:105-106 | The fill of the buffer follows from the low word of the count. |
| Md5.FeedByte | dump/md5.c:114-128 | One byte of an update: the buffer holds the tail, the state the whole blocks of the message so far. |
| Md5.PadLength | dump/md5.c:146-148 | Both padding cases: 1 to 64 bytes, after which the length is congruent to 56 modulo 64. |
| Md5.LastBlock | dump/md5.c:139-156 | The last transform, with the saved count in its last two words, completes the padded message. |
| Md5.CountSpells | dump/md5.c:155-156 | The count bytes are the number of bits modulo 2 to the 64, low-order byte first. |
| Md5.BlockDone | dump/md5.c:114-128 | One more whole block of the message is one more compression. |
| Md5Answers.EmptyDigest | dump/md5.c:83-168 | The known answer of section A.5 of RFC 1321 for the empty message. |
| Md5Answers.AbcDigest | dump/md5.c:83-168 | The known answer of section A.5 of RFC 1321 for "abc". |
| Md5.Context.Update | dump/md5.c:96-129 | The message grows by the bytes given. |
| Md5.Context.Final | dump/md5.c:131-168 | The digest is the one-shot digest of the message, however it was cut. |
| Md5.DigestChunks | dump/md5.c:83-168 | Every way to cut a message into updates gives the digest of sections 3.1 to 3.5 of RFC 1321 of the whole message. |
| Escape.CalcEscapedSize | dump/dump_ser_chimera.c:828-839 | The length of the escaped form. |
| Escape.WriteEscaped | dump/dump_ser_chimera.c:847-867 | The escaped form fills exactly the pre-computed length of the buffer. |
| Escape.Escaper.ToEscaped | dump/dump_ser_chimera.c:795-820 | The escaped form and a final zero, in a buffer that only grows. |
| Escape.EscapedLength | dump/dump_ser_chimera.c:828-839 | One byte for a plain byte, five for a special one. |
| Escape.EscapedByte | dump/dump_ser_chimera.c:847-867 | A printable byte other than backslash and single quote stays as it is; any other becomes two backslashes and its three octal digits. |
| Escape.EscapedPrintable | dump/dump_ser_chimera.c:847-867 | Only printable bytes and no single quote. |
| Escape.RoundTrip | dump/dump_ser_chimera.c:847-867 | The escaped form decodes to the input, so no two inputs share one. |

## Left out

- FileRead.ReadDataLow: for a hash-chain read that is out of step the bytes are stated as those the walk of the code delivers, not in terms of the contents; the exact condition is `FileRead.ReadExact`.
- FileWrite.WriteDataLow: a write of no bytes may only set the recorded size of an empty level; what such a level reads as afterwards is not part of the file system invariant.
- FsOps.WriteData: excludes the write of no bytes past the first block of an empty level (`FileWrite.SizeOnlyWrite`), for the same reason, and inodes other than regular files; writing through the ID of another kind of inode reads that inode's fields as if they were a file's.
- FsFiles.WriteFile: excludes the same.
- FsOps.MakeDirectory: asks for a directory (or a missing ID) as the parent; the code reads the flags of any other record as if it were a directory. Linking the top directory into the root record is not modelled.
- FsOps.Rename: asks for directories (or missing IDs), because the code reads the flags field of any record; the state after MDEpanic1 breaks the rule that an entry's inode knows its directory, so `Runs.Run` stops there.
- FsOps.CreateFile: the Unix attributes and the permissions merged into the answer are left out.
- FsOps.ReadData: reads of tags are `TagOps.ReadTag`; inodes of other kinds are excluded.
- Readdir.ReadAll: asks that no re-open falls back (`Readdir.Steady`), because from there on the loop may repeat itself; `Readdir.ReadBatches` and `Readdir.BackExact` say exactly when that is. All of this is for tables whose bucket numbers fit the cookie (`Readdir.TableFits`), which the sizes compiled in guarantee. Cookies no scan has handed out, and directories changed between batches, are not covered.
- FsReaddir.ReadDirectory: asks for the same.
- DumpTree.ReadListings: asks for the same of every directory; the dumper reads each directory when the walk comes to it, which on a store that does not change is the same.
- Propagate.Walk: collects the entries before visiting them, while the code visits them during the scan; the visits change neither rows nor blocks.
- Runs.Run: the requests are those the servers send: IDs of the right kind, and writes within `FsFiles.FlatRequest`.
- FsDirs.ModFlags: of the flags only the two that protect a directory are modelled; those of files and the trusted ones are not, nor are the flags handed back.
- DumpWalk.Walker.Process: the walk is over a finite tree of listings, which are parameters; `DumpTree.Dump` takes them from a file system. mdIsType accepts a record with any of the bits asked for, so a file or link as the top would be walked as if its bytes were a directory inode's; the model stops there.
- DumpTree.Dump: asks that the directories below the top form a finite tree, which `Trees.ForestRun` and `DumpTree.TreeExists` give after every run of orderly operations without a looping rename; from a directory of such a loop the walk of the code does not end.
- DumpCache.Cache.GetTagId: asked for a tag of a file or a link, the code reads the bytes of that inode as a directory inode, because mdIsType accepts any inode there; the model answers None.
- DumpCache.Cache.FindTagValue: likewise, the code reads the bytes of a file or link inode as a tag inode; the model answers None.
- CacheLists.CalcHash: the two database bytes of an ID do not take part; the lists need only the range of the hash, and `CacheLists.HashKnown` gives sample values.
- DumpWalk.Walker.ProcessOther: the levels of a file, its size and its level-2 metadata are left out; a link is reported whenever its record is read.
- DumpWalk.Walker.ProcessTag: whether the parent of a tag belongs to the dumped tree is a parameter; the results hold for every such decision.
- DumpCache.Cache.GetTagParent: for promoted tags the cached parent is null, which the database's is not; only tag IDs and tag values are transparent.
- DumpCache.Cache.StoreTag: the terminating byte copied behind a value is not modelled.
- Md5.Context.Final: the context cannot be used after it, as in the code.
- Escape.Escaper.ToEscaped: the call that frees the buffer is left out.
- IdArithmetic.Allocator.GetNextId: the counter is assumed not to wrap during the call, up to which point IDs are fresh.
- Stores.Store.NewId: uses unbounded IDs; `IdArithmetic` connects them to the three words.
- Special names (`.(tag)(..)` and the like), access control, permissions, Unix attributes, timestamps, trash and rename handlers, the registration of deletions.
- The shared-memory transport, the gdbm and PostgreSQL back ends, real locks and aborts.
- The administrator tools that bypass the invariants (raw entries, raw parents, removal by position, the md3 repair tools other than the compactor).
- The dumper's other serialisers, its options, statistics and logging, and parse_lvl2.c.
