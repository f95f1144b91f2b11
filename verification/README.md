# A verified model of Panopticon's storage, packet and device logic

Panopticon counts the people in rooms by the Wi-Fi probe requests their phones send. ESP32 stations hear
the packets and keep them in a SPIFFS flash file system; a server merges what several stations heard of one packet,
tells devices apart and places them in rooms. This project models the parts of it in which state is hardest to
keep right, and proves that they do.

`dafny verify dfyconfig.toml` checks everything. No file depends on anything outside this directory.

## The file system (ESP32/components/spiffs)

Flash memory is a log: an erase sets every bit of a block to one, a write only clears bits. The class
`Nucleus.Spiffs` holds a lookup table with one entry per page (`lu`), the pages themselves (`pages`), the free
cursor, the search cursor, the counters, the open descriptors and the work buffer, as the `spiffs` struct does, and its
methods change them step by step. Geometry is symbolic. A ghost field `files` names the index and data pages of each file;
`Volumes.FilesUnique` shows that the flash contents leave no choice about it.

`Spiffs.Sound()` is what every operation keeps: free entries come last in every block and stand for erased pages; the
cursor is on a block's first free entry, at the start of a block or past its end; the page counters are what a rescan would
count, and the count of free blocks is right but for erasures of blocks that were free already (`drift`); every live page is
the one index or data page of one file at its span; index entries and data pages refer to each other exactly; bytes
after the end of a file are erased; every descriptor has the header page, a live cursor page and the size of its file.

| files | what they model |
|---|---|
| `Nor`, `Layout`, `Offsets`, `Lookup`, `Flash`, `Writes` | cells that only lose bits; addresses, pages, blocks and spans; an offset that overflows; the wrapping search; the tables on flash; single writes |
| `Volumes`, `Contents` | live pages as files, what each step on them keeps; the bytes of a file |
| `Nucleus` | searching, allocating, moving and deleting pages, quick collection, telling descriptors |
| `Room`, `Gc`, `Candidates`, `Collect` | the pages a cleaning takes, the cleaning state machine, the choice of a block, the collection loop, and how an operation that collects first ends |
| `Editing`, `Remains`, `Objects`, `Stopped`, `Append`, `Rewrite`, `Modify`, `Hydro`, `Read`, `Truncate`, `Create`, `Mount` | file operations against byte sequences, and what they leave behind when they fail |
| `FileSystem` | whole runs of commands refine a map from ids to byte sequences |
| `Interrupted` | the flash after each write of a page move |
| `Checker`, `Checked` | the lookup check and the bitmap page check; what it means that they find nothing to repair |
| `ReadCache`, `WriteBehind`, `Cached` | the read cache over raw flash; pending writes of a descriptor; such a descriptor on the file system |

The main results are `FileSystem.Run`, `Gc.Clean`, `Collect.GcCheck`, the four object operations with `Hydro.HydroWrite`,
`Interrupted.NeverLost`, `Interrupted.SurvivesExactly`, `Checker.PageCheckOnOrder`, `Checked.CleanExactly`, `ReadCache.Run`
and `Cached.Run`.

What a file reads as is told from the live pages alone: `Remains.Reads` follows the header and the entries of the index
pages, and `Remains.ReadsOnce` shows that there is at most one way. A file that does not read as any bytes is torn
(`Remains.Torn`): `TornShort` and `TornEntry` show that it is if its header gives more bytes than its data pages can hold,
or an index entry names another page than the data page of its span. When an append runs out of space, its file reads as the
old bytes and the first of the new ones; after an overwriting or emptying it may be torn; all other files read as they did.
When a block picked for cleaning cannot be emptied, pages may have been moved while the index page that names them could
not be stored (`Gc.Halfway`): one file at most, whichever the operation was on, may then be torn (`Stopped.HalfwayLeaves`).
`FileSystem.Run` says what is left after any command that fails.

`Spiffs.Budget()` says how many pages can be taken one after the other without garbage being collected, `FileSystem.Price`
how many a command takes at most; a command within the budget succeeds and leaves at least the rest of it. Beyond the
budget, garbage is collected. `Collect.Collects` says what a collection is, run by run: when none is made, which block each run
picks, when another run follows, and what comes out. Every operation gives the collections it has made; if it fails for want
of space, the last of them has, or no page can be taken any more (`Collect.Ended`): fewer than two blocks are counted free and
none consists of deleted pages only, or no page is free (`Spiffs.Stuck`). `FileSystem.Run` says so of every command. While a
block is cleaned, pages may be put back into it when the free cursor comes round to it. They are found again later in the same
scan, so that nothing is lost, and `Gc.Clean` counts only free pages outside the block.

Where the code and what one would expect of it differ, the model follows the code and the exact condition is proved:

- `Layout.MagicCheckExact`, `Layout.MagicCheckRejects`: the mount-time check that entries do not overlap the magic word
  passes some configurations with a full last lookup page, and rejects some with an unused one.
- `Checker.PageCheckOnOrder`: when its ranges run past page 0xffff, which allowed geometries make happen, the page check takes
  an empty index entry for a reference to that page, and without empty entries may never end, its 16-bit offset starting over.
  `Checker.FormattedEndless` and `Checker.EmptyFileRepaired` are flashes on which it does.
- `Checked.PastEndOverlooked`: an index entry that names the page after the last one goes unnoticed if the ranges of the page
  check end with the last page, as they do in `Checked.EvenGeometry`.
- `Candidates.EraseAgeIs`: erase counts start over at 0x8000, but their difference is taken in 16 bits, which makes blocks from
  before that 0x7fff erasures older.
- `Rewrite.StoreBuffer`, `Hydro.HydroWrite`: a write of no bytes before the end of a file stores whatever page the work buffer
  holds as the header of the file. `FileSystem.LoseByte` is a run that loses a byte in this way.
- `Interrupted.SurvivesExactly`: moving a page with given contents loses it if those were not marked final; all callers pass final ones.
- `ReadCache.Cache.PhysWr`: a write that would have to set bits leaves the cache ahead of the flash.
- `WriteBehind.Descriptor.WriteData`: in append mode with bytes pending the position lags behind; the contents do not.
- `Nucleus.Spiffs.EraseBlock`: erasing a free block counts it twice, which `Mount.Scan` sets right. `Collect.FreeBlockPicked`
  says when a collection picks one.

## The server (Server)

`DictionaryStack` models the lock-protected dictionary with a doubly linked list ordered by last update, on the heap; every
locked operation is one step. `FileParser` gathers receptions on top of it, and `AnalysisEngine` keeps devices, the table
of their MAC addresses and the room counters. The engine's contracts are stated by functions on values (`Analyzed`, `Merge`,
`MatchUpTo`, `Cleaned`); what they keep is proved about those functions, for single steps and for whole runs
(`AnalysisEngine.RunSound`).

- `AnalysisEngine.AnalyzedSound`, `AnalysisEngine.Engine.AnalyzePacket`: table and counters stay right if and only if the
  name generated for a new anonymous device is not in use. The original makes it from the minute and four digits of a hash,
  so that this is an assumption there.
- `AnalysisEngine.MergedDrift`: merging devices last found in different rooms leaves one counter too high and one too low;
  the sum of all counters stays right.
- `AnalysisEngine.PickIsBest`: scores are capped at 100 while the search goes on, so that of several matches over 100 the
  last one is taken.

## MD5 (ESP32/components/md5)

`Md5` has RFC 1321 as functions (padding, the four rounds with their register order) and the program as methods on arrays; the
loop that rotates its registers is shown to do the same. What the functions compute is said bit by bit, and `Md5Suite` proves
the digest of the empty message that the RFC gives. The table of sines is taken over as constants, all of which that digest
depends on.

## Model

| member | source | states |
|---|---|---|
| Layout.PixRoundTrip | ESP32/components/spiffs/spiffs_nucleus.h:188-211 | a page and its (block, lookup entry) determine each other, and no page with an entry is a lookup page |
| Layout.EntryRoundTrip | ESP32/components/spiffs/spiffs_nucleus.h:203-211 | every page that is not a lookup page comes back from its block and entry |
| Layout.SpanRoundTrip | ESP32/components/spiffs/spiffs_nucleus.h:230-243 | a data page's index page and entry stay within that index page and lead back to the data page |
| Layout.EntrySpanRoundTrip | ESP32/components/spiffs/spiffs_nucleus.h:230-243 | every entry of every index page stands for exactly one data page |
| Layout.DeriveWf | ESP32/components/spiffs/spiffs_nucleus.h:170-214 | every accepted configuration gives a geometry in which a block's lookup pages hold all its entries |
| Layout.StationGeometry | ESP32/sdkconfig:86-89 | the configuration of the stations gives 128 blocks of 32 pages, one of them for lookup, with 251 data bytes and 57 or 124 index entries in a page |
| Layout.PaddrRoundTrip | ESP32/components/spiffs/spiffs_nucleus.h:194-201 | a byte address and its (page, offset) determine each other |
| Layout.MagicCheckExact | ESP32/components/spiffs/spiffs_nucleus.h:216-228 | for a configuration the magic check can be relied on, no lookup entry overlapping the erase count or the magic word if it passes, if and only if the last lookup page is not full |
| Layout.MagicCheckFullPage | ESP32/components/spiffs/spiffs_nucleus.h:223-228 | a configuration with a full last lookup page passes although entries do overlap both words |
| Layout.MagicCheckRejects | ESP32/components/spiffs/spiffs_nucleus.h:223-228 | the magic check rejects a configuration whose entries are clear of both words if and only if they end one short of the end of a lookup page other than the last |
| Layout.MagicCheckUnusedPage | ESP32/components/spiffs/spiffs_nucleus.h:223-228 | a configuration with an unused last lookup page is rejected so |
| Lookup.FindEntry | ESP32/components/spiffs/spiffs_nucleus.c:124-223 | from any start the search reports the first entry in cyclic order that stops the visitor, and not-found if and only if there is none; its loop ends, having visited no entry more than twice, and each exactly once if it started at the start of a block and nothing stopped it |
| Lookup.VisitsFew | ESP32/components/spiffs/spiffs_nucleus.c:124-223 | however many rounds a search has made, they cover no entry more than twice, and every entry exactly once if it started at the start of a block and went all the way round |
| Lookup.FindInBlock | ESP32/components/spiffs/spiffs_nucleus.c:160-205 | one block is visited entry by entry across its lookup pages, each once, up to the first stop |
| Nucleus.Spiffs.FindId | ESP32/components/spiffs/spiffs_nucleus.c:485-498 | found is the first entry with the id in cyclic order; not found means no block has one |
| Nucleus.Spiffs.FindIdAndSpan | ESP32/components/spiffs/spiffs_nucleus.c:527-562 | found is a live finalized page of the object and span; not found means there is none but the excluded one |
| Flash.OccupyTables | ESP32/components/spiffs/spiffs_nucleus.c:753-806 | taking the first free entry of a block keeps free entries last in every block, free pages erased and deleted pages marked |
| Flash.ReleaseTables | ESP32/components/spiffs/spiffs_nucleus.c:876-902 | deleting a live page keeps the same |
| Nor.AndErased | ESP32/components/spiffs/spiffs_nucleus.c:72-78 | programming an erased cell stores the value |
| Nor.AndSelf | ESP32/components/spiffs/spiffs_nucleus.c:72-78 | programming a cell with what it holds changes nothing |
| Nor.AndBits | ESP32/components/spiffs/spiffs_nucleus.c:72-78 | programming leaves exactly the bits that the cell and the value have in common |
| Volumes.FilesUnique | ESP32/components/spiffs/spiffs_nucleus.c:527-562 | the live pages of the flash determine the files: at most one reading of them is consistent |
| Volumes.ReplaceData | ESP32/components/spiffs/spiffs_nucleus.c:1520-1581 | storing a data page anew and updating its entry keeps every file linked, each with one live page per span |
| Volumes.MoveDataKeeps | ESP32/components/spiffs/spiffs_gc.c:433-477 | moving a data page with its entry leaves every file's bytes alone |
| Volumes.MoveIndexKeeps | ESP32/components/spiffs/spiffs_gc.c:478-514 | moving an index page leaves every file's bytes alone |
| Volumes.DropData | ESP32/components/spiffs/spiffs_nucleus.c:1785-1819 | deleting the last data page and resetting its entry keeps every file linked |
| Nucleus.Spiffs.Format | ESP32/components/spiffs/spiffs_hydrogen.c:38-67 | a formatted and mounted flash is in order, with no files and exact counters |
| Nucleus.Spiffs.EraseBlock | ESP32/components/spiffs/spiffs_nucleus.c:226-264 | the block is erased and the free block count goes up by one, whether or not the block was free already; the erase count wraps as 16 bits |
| Nucleus.Spiffs.GcQuick | ESP32/components/spiffs/spiffs_gc.c:32-105 | the block erased is the lowest-numbered reclaimable one, and there is none if and only if it reports none; with limit 0 everything of the flash stays in order, counters included |
| Nucleus.Spiffs.FindFree | ESP32/components/spiffs/spiffs_nucleus.c:449-480 | the entry found is the next free one from the cursor, the first free one of its block; outside of cleaning at least two blocks are free or counted twice; the answer is that the flash is full if and only if fewer than two blocks are counted free, and still are with one block of deleted pages erased if there is one; it is found without collecting garbage while the budget of pages lasts, and takes one of it |
| Nucleus.Spiffs.FreshBudget | ESP32/components/spiffs/spiffs_nucleus.c:449-480 | after formatting the budget is one page and all pages of all blocks but four |
| Nucleus.NextFreeIsFirst | ESP32/components/spiffs/spiffs_nucleus.c:449-480 | from a proper cursor the next free entry is the first free one of its block |
| Nucleus.Spiffs.AllocateData | ESP32/components/spiffs/spiffs_nucleus.c:753-806 | the volume gains exactly the page written, all tables and counters stay right |
| Nucleus.Spiffs.PageDelete | ESP32/components/spiffs/spiffs_nucleus.c:876-902 | the volume loses exactly that page, all tables and counters stay right, and the writes to the flash are the entry and then the mark |
| Nucleus.Spiffs.PageMove | ESP32/components/spiffs/spiffs_nucleus.c:812-871 | the volume has the page, or the given version of it, in a page that was free, and the old page no more; the writes to the flash, in their order, are those of a move, and leave it as they say |
| Writes.StoreLeaves | ESP32/components/spiffs/spiffs_nucleus.c:832-863 | writing the page, its lookup entry and, if it was given as final, its final mark leaves exactly that page in place of the free one |
| Writes.DeleteLeaves | ESP32/components/spiffs/spiffs_nucleus.c:876-902 | writing the lookup entry and the mark in the page leaves exactly that page deleted |
| Nucleus.Spiffs.UpdateIndexHdr | ESP32/components/spiffs/spiffs_nucleus.c:974-1033 | the header is stored in a new page with the size, and all descriptors are told |
| Nucleus.Spiffs.ObjectEvent | ESP32/components/spiffs/spiffs_nucleus.c:1036-1114 | every descriptor of the object is brought up to date as the event says |
| Nucleus.IndexMoved | ESP32/components/spiffs/spiffs_nucleus.c:1036-1078 | announcing an index page's new place keeps every descriptor's header and cursor page those of its file |
| Interrupted.NeverLost | ESP32/components/spiffs/spiffs_nucleus.c:812-902 | however many of the writes of a move have been done, a search still finds the page, if its replacement would be found |
| Interrupted.CutStoring | ESP32/components/spiffs/spiffs_nucleus.c:832-863 | until the source page is to be deleted it is as it was; after all writes before that the new page is there in full |
| Interrupted.CutDeleting | ESP32/components/spiffs/spiffs_nucleus.c:864-902 | from then on the new page is there, and no page but the two has changed |
| Interrupted.OneInTheEnd | ESP32/components/spiffs/spiffs_nucleus.c:812-902 | after all writes of a move exactly the new page is found |
| Interrupted.SurvivesExactly | ESP32/components/spiffs/spiffs_nucleus.c:832-866 | the page survives the move if and only if no replacement was given or the given one was not marked unfinalized |
| Interrupted.HalfCopied | ESP32/components/spiffs/spiffs_nucleus.c:83-103 | whatever part of the copy has been written, a search still finds the source and not the copy |
| Interrupted.EndsAsMoved | ESP32/components/spiffs/spiffs_nucleus.c:812-902 | all writes together lead to the volume PageMove promises |
| Gc.EvacuatePage | ESP32/components/spiffs/spiffs_gc.c:433-477 | moving one data page and updating the loaded index page keeps all bytes of all files |
| Gc.EvacuateDataPages | ESP32/components/spiffs/spiffs_gc.c:397-477 | one scan leaves no data page in the block that the loaded index page refers to, pages that were put into the block on the way included |
| Gc.CleanRound | ESP32/components/spiffs/spiffs_gc.c:397-590 | a FIND/MOVE round leaves no data page before the entry it goes on from, so that the scan index grows; files keep their bytes |
| Gc.MoveIndexPages | ESP32/components/spiffs/spiffs_gc.c:478-522 | the index pages of the block are moved and their new places announced |
| Gc.Clean | ESP32/components/spiffs/spiffs_gc.c:377-604 | cleaning ends, and succeeds if and only if the free pages outside the block are as many as the data pages in it and, each counted once, the index pages that are in it or refer to them; every file then has its bytes and every descriptor its pages, no live page is in the block and the cursor is outside it, wherever the cursor was; otherwise every file is as it was but for one index page that has not been stored |
| Room.DataMoves | ESP32/components/spiffs/spiffs_gc.c:433-477 | a data page moved out of the block is one page less to store, and one moved within it none |
| Room.IndexMoves | ESP32/components/spiffs/spiffs_gc.c:570-590 | storing an index page outside the block is one page less to store, however many pages referred to it |
| Candidates.FindCandidate | ESP32/components/spiffs/spiffs_gc.c:236-345 | the table is the stable top of all blocks by score |
| Candidates.Insert | ESP32/components/spiffs/spiffs_gc.c:316-336 | a block goes before the first lower score, in place, the last candidate dropping out |
| Candidates.PutKeepsTop | ESP32/components/spiffs/spiffs_gc.c:316-336 | inserting the next block keeps the table the best of those scored so far, ties by lower index |
| Candidates.FirstIsBest | ESP32/components/spiffs/spiffs_gc.c:236-345 | the chosen block is the lowest-numbered one of maximal score |
| Candidates.EraseAgeIs | ESP32/components/spiffs/spiffs_gc.c:305-310 | the age of a block is the number of erasures since its own, and 0x7fff more if the count has started over in between |
| Candidates.ScanBlock | ESP32/components/spiffs/spiffs_gc.c:264-294 | stopping at the first free entry counts all deleted and used entries of the block |
| Collect.ErasePageStats | ESP32/components/spiffs/spiffs_gc.c:199-233 | the counters lose exactly the block's live and deleted pages |
| Collect.EraseCleaned | ESP32/components/spiffs/spiffs_gc.c:163-169 | erasing a cleaned block keeps the flash in order and all live pages; one more block is counted than is free exactly if it was free before |
| Collect.CleanAndErase | ESP32/components/spiffs/spiffs_gc.c:153-169 | a run empties and erases the block picked if and only if there are enough free pages outside it, where none becomes free |
| Collect.FreeBlockPicked | ESP32/components/spiffs/spiffs_gc.c:283-339 | a block that is free already is picked if and only if its age scores as high as five times the deleted pages, less the used pages, and the age of every other block, and higher than those of lower number |
| Collect.GcCheck | ESP32/components/spiffs/spiffs_gc.c:109-196 | collection ends; no run is made if and only if the bytes fit at once or cannot fit; every run picks the lowest-numbered block of highest score, fails if and only if there are too few free pages outside it, and else frees it; another follows if and only if fewer than three blocks or too few pages are free, five have not been made, and it was not one on a crammed flash that gained nothing; the answer is that of the run that has failed, or else whether the bytes fit; every file keeps its bytes, but that one index page may not have been stored if a run has failed; each run that picked a block already free leaves one more block counted twice |
| Stopped.HalfwayLeaves | ESP32/components/spiffs/spiffs_gc.c:377-604 | when a cleaning has stopped halfway, every file reads as it did, but for one at most, which does or is torn |
| Stopped.StoppedItself | ESP32/components/spiffs/spiffs_gc.c:433-514 | the file whose index page has not been stored reads as it did, or is torn, an entry naming a page that has been moved |
| Create.CreateObject | ESP32/components/spiffs/spiffs_nucleus.c:907-966 | a new file exists and is empty, no other has changed; it succeeds if the budget of pages is 2 or more; out of space, there is no new file, and only after a failed cleaning may one other be torn; if it fails for want of space, so has the collection before it, after which nothing was changed, or now no page can be taken |
| Create.OpenByPage | ESP32/components/spiffs/spiffs_nucleus.c:1135-1170 | the descriptor is that of the file whose header is at the page, everything stays in order |
| Objects.LoadIndex | ESP32/components/spiffs/spiffs_nucleus.c:1283-1303 | the index page loaded, by header, cursor or search, is the file's own at that span |
| Objects.FindsIndex | ESP32/components/spiffs/spiffs_nucleus.c:501-562 | on a file system in order a search for an index page finds the file's own at that span, and nothing else |
| Objects.DescriptorAgrees | ESP32/components/spiffs/spiffs_nucleus.c:1036-1078 | what every open descriptor remembers is what a fresh search finds: the one live header, and the one live index page at its cursor span if there is any |
| Append.AppendObject | ESP32/components/spiffs/spiffs_nucleus.c:1175-1416 | the file's bytes are the old ones and the data after them, across any number of index pages; when space runs out, the old ones and the first of the data; no other file has changed; it succeeds if its price is within the budget of pages; only after a failed cleaning may one file be torn; if it fails for want of space, so has the collection before it, after which nothing was changed, or now no page can be taken |
| Append.LastIndex | ESP32/components/spiffs/spiffs_nucleus.c:1259-1282 | the end of a file belongs to its last index page or to the next one |
| Modify.ModifyObject | ESP32/components/spiffs/spiffs_nucleus.c:1422-1621 | the file's bytes are the old ones with the data at the offset; if it fails, with the first of the data there, or the file is torn; no other file has changed, but for one that may be torn after a failed cleaning; it succeeds if its price is within the budget; given no bytes, the file still reads as it did if and only if the work buffer held its header; if it fails for want of space, so has the collection before it, after which nothing was changed, or now no page can be taken |
| Modify.ReadsOrTorn | ESP32/components/spiffs/spiffs_nucleus.c:1480-1621 | while an index page is in the work buffer, the file as it is on the flash reads as what has been written so far, or is torn |
| Modify.CopyPage | ESP32/components/spiffs/spiffs_nucleus.c:1527-1565 | a partly changed page is stored anew with what the old page held around the chunk |
| Rewrite.StoreBuffer | ESP32/components/spiffs/spiffs_nucleus.c:1589-1618 | a modification by no bytes makes the work buffer the header of the file, if it looks like a header; the file reads as before if and only if it held that very header |
| Rewrite.HeldIfReads | ESP32/components/spiffs/spiffs_nucleus.c:1589-1618 | if with the work buffer for a header the file reads as its bytes, the buffer was the header: id, index and size |
| Rewrite.ForeignHeader | ESP32/components/spiffs/spiffs_nucleus.h:309-315 | the header of any other file looks like one |
| Hydro.HydroWrite | ESP32/components/spiffs/spiffs_hydrogen.c:423-443 | modify then append gives old[..offset] + data + old[offset + len..]; if it fails, the same with the first of the data, or the file is torn; no other file has changed, but for one that may be torn after a failed cleaning; it succeeds if its price is within the budget; a write of no bytes changes nothing at the end of the file, and before it exactly if the work buffer held the header; there is one collection for the part that overwrites and one for the part that appends, and it fails as the last one made says |
| Hydro.WriteInTwo | ESP32/components/spiffs/spiffs_hydrogen.c:423-443 | overwriting up to the end and appending the rest is writing over the end |
| Read.ReadObject | ESP32/components/spiffs/spiffs_nucleus.c:1929-2019 | the bytes given are those of the file at the offset, and nothing changes |
| Read.HydroRead | ESP32/components/spiffs/spiffs_hydrogen.c:359-411 | reads are cut at the end of the file, and report it if and only if the position is there or past it |
| Truncate.TruncateObject | ESP32/components/spiffs/spiffs_nucleus.c:1690-1926 | the file is empty, or gone with its descriptors closed; no other file has changed; removing always succeeds, emptying if its price is within the budget; if it fails the file reads as it did or is torn, and only after a failed cleaning may one other be torn, the collection before it having failed or no page being left; the header page of a removed file bears the mark of a removal |
| Truncate.TornPromise | ESP32/components/spiffs/spiffs_nucleus.c:1729-1819 | once a data page has been deleted and the header still has the old size, the file is torn |
| Truncate.DropLast | ESP32/components/spiffs/spiffs_nucleus.c:1729-1819 | each round of the loop deletes the last data page and what it held |
| Mount.Scan | ESP32/components/spiffs/spiffs_nucleus.c:320-444 | after the counting pass the counters are the counts; on a file system in use they were already, but for blocks erased while free |
| Mount.Mount | ESP32/components/spiffs/spiffs_nucleus.c:348-444 | mounting consistent flash contents gives a file system in order, with the next erase count |
| Mount.NextEraseCount | ESP32/components/spiffs/spiffs_nucleus.c:384-405 | the next erase count is the one after the highest, after the lowest if they are over 0x7fff apart, or 1 if there is none |
| FileSystem.Run | ESP32/components/spiffs/spiffs_hydrogen.c:177-443 | any run of creates, opens, closes, writes, reads, truncations, removals and remounts that succeeds does to the flash what it does to plain byte sequences, and the reads give the same bytes; one that fails has done so up to the failing command, after which the target has the first of its new bytes, is as it was or is torn, and all other files read as they did, but for one that may be torn after a failed cleaning; it also stops at a write of no bytes before the end of a file that finds another page in the work buffer; without such writes and remounts it does succeed if its total price is within the budget of pages; each command has made the collections its size calls for, all successful, and a failing command has failed as the last of its own says |
| FileSystem.Do | ESP32/components/spiffs/spiffs_hydrogen.c:177-443 | the same of each command; opening, closing, reading, removing and remounting always succeed; the collections a command makes begin with the state before it |
| FileSystem.LoseByte | ESP32/components/spiffs/spiffs_nucleus.c:1589-1618 | from formatting, two creates, two opens, two writes of a byte and a write of no bytes to the first file: all succeed, and the first file does not read as its byte |
| Remains.ReadsOnce | ESP32/components/spiffs/spiffs_nucleus.c:1929-2019 | the live pages admit at most one reading of a file |
| Remains.LinkedReads | ESP32/components/spiffs/spiffs_nucleus.c:1929-2019 | a file whose pages refer to each other exactly reads as the bytes its header promises |
| Remains.TornShort | ESP32/components/spiffs/spiffs_nucleus.c:1929-2019 | a file whose header gives more bytes than its data pages can hold does not read as anything |
| Remains.TornEntry | ESP32/components/spiffs/spiffs_nucleus.c:1929-2019 | nor does one with an index entry that names another page than the data page of its span |
| Checker.LookupCheck | ESP32/components/spiffs/spiffs_check.c:173-494 | the lookup check has nothing to repair if and only if every entry agrees with its page |
| Checker.LookupOnOrder | ESP32/components/spiffs/spiffs_check.c:173-443 | on a file system in order every entry agrees |
| Checker.BuildBitmap | ESP32/components/spiffs/spiffs_check.c:509-733 | the 4-bit map says of each page of the range if it is used, referenced and an index page |
| Checker.Pass | ESP32/components/spiffs/spiffs_check.c:516-848 | a pass over a range finds nothing to repair if and only if the range is clean |
| Checker.PageCheckAll | ESP32/components/spiffs/spiffs_check.c:509-848 | the page check finishes, comes to something to repair, or never ends, exactly as its passes say in the order of its 16-bit offset |
| Checker.PassOnOrder | ESP32/components/spiffs/spiffs_check.c:584-665 | on a file system in order a pass is clean if and only if its range ends at or below page 0xffff or no index entry is empty |
| Checker.PageCheckOnOrder | ESP32/components/spiffs/spiffs_check.c:509-848 | on a file system in order the page check finishes if its ranges end below 2^16; otherwise it repairs something if an index entry is empty, and without one finishes if and only if 2^16 less the largest power of two that divides the range size reaches all pages; else it never ends |
| Checker.RangeOverrun | ESP32/components/spiffs/spiffs_check.c:509-521 | 255 blocks of 64 KiB in pages of 256 bytes are a geometry the configuration allows whose ranges run past 2^16, and whose offset then starts over at 0 without end |
| Checker.FormattedEndless | ESP32/components/spiffs/spiffs_check.c:509-848 | on that geometry the page check of a flash just formatted never ends |
| Checker.EmptyFileRepaired | ESP32/components/spiffs/spiffs_check.c:580-665 | on that geometry the page check repairs a flash in order with one empty file |
| Offsets.OffsetReaches | ESP32/components/spiffs/spiffs_check.c:511-848 | a 16-bit offset stepped on and on comes to p or beyond if and only if p is at most 2^16 less the largest power of two that divides the step |
| Checker.CheckOnOrder | ESP32/components/spiffs/spiffs_check.c:475-859 | on a file system in order the lookup check finds nothing to repair, and the page check ends as PageCheckOnOrder says |
| Checked.CleanMeans | ESP32/components/spiffs/spiffs_check.c:173-848 | on any flash, if neither check finds anything to repair, every index entry that is not empty names the data page of its own object and span, no page is named twice, every data page is named and no index page is marked as being removed; of entries that name the page after the last only if the ranges do not end there |
| Checked.CleanExactly | ESP32/components/spiffs/spiffs_check.c:509-848 | on a flash whose lookup entries agree with their pages, and if the ranges end at or below page 0xffff, the page check finds nothing to repair if and only if that is so |
| Checked.PastEndOverlooked | ESP32/components/spiffs/spiffs_check.c:585-588 | where the ranges end with the last page, a flash with an entry that names the page after it is found clean |
| ReadCache.Cache.PageGet | ESP32/components/spiffs/spiffs_cache.c:14-30 | a cached page is found if and only if it is cached, and found once |
| ReadCache.Cache.RemoveOldest | ESP32/components/spiffs/spiffs_cache.c:59-86 | if every slot is busy the read page left alone the longest goes; pages with pending writes stay |
| ReadCache.AgeIs | ESP32/components/spiffs/spiffs_cache.c:74-76 | the age of a cache page is the number of accesses since, although the counter starts over |
| ReadCache.Cache.PhysRd | ESP32/components/spiffs/spiffs_cache.c:120-177 | gives exactly the flash bytes and keeps the cache coherent, no page cached twice, and cache pages with pending writes as they are |
| ReadCache.Cache.PhysWr | ESP32/components/spiffs/spiffs_cache.c:180-219 | programs the flash; the cache stays coherent if and only if the page is not cached or dropped, a write past the cache changes nothing, or a write into it only clears bits; pending writes stay |
| ReadCache.Cache.EraseBlock | ESP32/components/spiffs/spiffs_gc.c:9-27 | after a block erase its pages are all ones but for the erase count, none is cached, the rest is coherent, and pending writes stay |
| ReadCache.Cache.DropPage | ESP32/components/spiffs/spiffs_cache.c:110-115 | the page is cached no more, the others and pending writes stay |
| ReadCache.Run | ESP32/components/spiffs/spiffs_cache.c:14-219 | over any run of reads, writes that clear bits, page deletions, drops and block erasures, the reads give what a flash without a cache gives, the flash ends up the same, and no pending write is lost |
| WriteBehind.Descriptor.WriteData | ESP32/components/spiffs/spiffs_hydrogen.c:446-572 | content and pending bytes together are what direct writing gives, for no bytes too; the position too, exactly unless appended bytes are pending; nothing is written to the file if the bytes can be gathered with those pending, else those are, and the new ones unless a cache page is to be had for them |
| WriteBehind.Descriptor.Seek | ESP32/components/spiffs/spiffs_hydrogen.c:574-621 | seeking writes the pending bytes back first, and then does to contents and position what it does when writing straight through |
| WriteBehind.SeekAndRead | ESP32/components/spiffs/spiffs_hydrogen.c:574-621 | reading after a seek gives the bytes at that place from the start, those just written after seeking back over them, and the last ones after a seek from the end |
| WriteBehind.Descriptor.ReadData | ESP32/components/spiffs/spiffs_hydrogen.c:359-411 | reads see the pending bytes, which are written back first, unless the size of the file is still undefined, when nothing is read or written; no bytes are written before the end of the file but from an empty cache page there |
| WriteBehind.Gathered | ESP32/components/spiffs/spiffs_hydrogen.c:528-537 | bytes put inside or right after the pending range are bytes written to the file |
| WriteBehind.Run | ESP32/components/spiffs/spiffs_hydrogen.c:446-621 | any sequence of writes, seeks, reads and flushes ends, flushed, as writing straight through, with the same reads; it writes no bytes before the end of the file unless an operation does so itself |
| WriteBehind.RunAppending | ESP32/components/spiffs/spiffs_hydrogen.c:468-491 | a descriptor in append mode adds all bytes at the end in order, wherever it seeks that is not before the start of the file, and never writes no bytes before the end |
| Cached.Run | ESP32/components/spiffs/spiffs_hydrogen.c:359-621 | on the flash any such run ends, flushed, with the file as writing straight through leaves it and all else as it was, the bytes read coming from the flash; only a run that writes no bytes can put another page in place of the header; if it fails all other files read as they did, but for one that may be torn after a failed cleaning |
| Cached.Do | ESP32/components/spiffs/spiffs_hydrogen.c:359-621 | the same of each operation |
| Cached.StepsReplay | ESP32/components/spiffs/spiffs_hydrogen.c:359-443 | carrying out what a descriptor does to its file as commands changes that file, as it says, and no other |
| DictionaryStack.Stack.ShiftPosition | Server/ConcurrentDictionaryStack.cs:29-56 | the node ends up last, the others keep their order, forward and backward links agree |
| DictionaryStack.Stack.Extract | Server/ConcurrentDictionaryStack.cs:147-162 | the node leaves the chain, the ends and both directions of links stay right |
| DictionaryStack.Stack.Upsert | Server/ConcurrentDictionaryStack.cs:64-81 | the entries are the old ones without the key, and the key last with its updated value |
| DictionaryStack.Stack.UpsertAndConditionallyRemove | Server/ConcurrentDictionaryStack.cs:91-114 | the key goes last with its updated value, or goes away if the condition holds of that value |
| DictionaryStack.Stack.Remove | Server/ConcurrentDictionaryStack.cs:140-172 | exactly the key's entry is gone, and its value given |
| DictionaryStack.Stack.GetKey | Server/ConcurrentDictionaryStack.cs:115-124 | the value under the key, or none |
| DictionaryStack.Stack.Peek | Server/ConcurrentDictionaryStack.cs:129-139 | the least recently updated value, or none |
| DictionaryStack.Stack.Pop | Server/ConcurrentDictionaryStack.cs:179-188 | with values that carry their keys, the least recently updated entry goes and its value is given |
| DictionaryStack.Stack.PopConditional | Server/ConcurrentDictionaryStack.cs:196-212 | the least recently updated value is given, and its entry removed if the condition holds of it |
| DictionaryStack.Stack.Drain | Server/FileParser.cs:142 | the loop ends and removes exactly the longest prefix the condition holds of |
| DictionaryStack.WithoutKey | Server/ConcurrentDictionaryStack.cs:140-165 | removal changes what is found under that key only, and keys stay distinct |
| DictionaryStack.UpsertedKey | Server/ConcurrentDictionaryStack.cs:64-81 | an upsert changes what is found under that key only, and keys stay distinct |
| DictionaryStack.HoldsCombined | Server/ConcurrentDictionaryStack.cs:64-172 | over any run each key holds the values put under it since its last removal, combined in order |
| DictionaryStack.LeastRecentFirst | Server/ConcurrentDictionaryStack.cs:29-172 | over any run the entries stand in the order of their last upserts |
| FileParser.PacketReducer | Server/FileParser.cs:19-47 | the two loops compute Reduced |
| FileParser.MergedStrongest | Server/FileParser.cs:19-47 | merging receptions one by one keeps each station once, with its strongest signal |
| FileParser.IsReady | Server/FileParser.cs:49-99 | the counting, searching and filtering loops compute Ready |
| FileParser.ReadyCovers | Server/FileParser.cs:56-73 | a packet is ready if and only if all stations of some room have received it |
| FileParser.OfRoomBest | Server/FileParser.cs:75-84 | what is left of a ready packet is one reception from each station of the room, the strongest it heard |
| FileParser.OnlyItsRoom | Server/FileParser.cs:66-73 | the room that has become complete is that of the station heard last |
| FileParser.OrderIrrelevant | Server/FileParser.cs:19-99 | coverage and the receptions emitted do not depend on the order of arrival |
| FileParser.FileParser.Receive | Server/FileParser.cs:260-267 | a hash is emitted exactly at the reception with which those since its last emission or eviction cover a room, with the best of that room's receptions and the time of the first of them, which is not after now |
| FileParser.FileParser.Evict | Server/FileParser.cs:140-143 | exactly the packets first heard more than 300 seconds ago are dropped, least recently heard first, up to the first that is not |
| AnalysisEngine.AnalyzedSound | Server/AnalysisEngine.cs:59-93 | a packet keeps table and counts right if and only if the identifier made for a new anonymous device is fresh; the Add never hits an existing key; no room's count drifts |
| AnalysisEngine.AnalyzedKeys | Server/AnalysisEngine.cs:59-93 | nothing changes if the sender was last found in the room of the packet less than three seconds before it; else the sender is where and when the packet says, first seen when it was, and the most recently updated device, and no other changes |
| AnalysisEngine.LocalBit | Server/AnalysisEngine.cs:199-203 | an address is a local one if and only if the second bit of its first octet is set |
| AnalysisEngine.MergedSound | Server/AnalysisEngine.cs:97-127 | a merge keeps the table a bijection and the counters' sum right |
| AnalysisEngine.MergedKeys | Server/AnalysisEngine.cs:97-127 | the recurrence is gone, the original keeps its identifier and takes on the newer address and position, no other device changes |
| AnalysisEngine.OriginalIsFirst | Server/AnalysisEngine.cs:99-104 | of two devices that are merged the one seen first keeps its identifier, and of two seen at the same time the one named first |
| AnalysisEngine.MergedDrift | Server/AnalysisEngine.cs:97-127 | a merge leaves every room's counter right if and only if both devices were last found in the same room |
| AnalysisEngine.PickIsBest | Server/AnalysisEngine.cs:170-187 | the match chosen is the first of highest score, or the last of those over 100 |
| AnalysisEngine.MatchExactly | Server/AnalysisEngine.cs:170-193 | a round drops one device if some later one scores over 50 with its own, and else changes nothing |
| AnalysisEngine.MatchSound | Server/AnalysisEngine.cs:164-195 | a whole match pass keeps the engine sound whatever the scores |
| AnalysisEngine.CleanedSound | Server/AnalysisEngine.cs:255-266 | cleaning drops exactly the longest run of devices last found more than 300 seconds ago, the least recently updated ones, and keeps the engine sound, every room's counter exact |
| AnalysisEngine.RunSound | Server/AnalysisEngine.cs:36-55 | over any run the table of addresses is the bijection with the tracked anonymous devices and the room counters add up to the number of devices |
| AnalysisEngine.RunExact | Server/AnalysisEngine.cs:36-55 | if only devices of one room are matched, every room's counter follows the devices last found there |
| AnalysisEngine.Engine.AnalyzePacket | Server/AnalysisEngine.cs:59-93 | does what Analyzed says, for any identifier; the engine stays sound if and only if that, should it be needed, is not in use |
| AnalysisEngine.Engine.MergeAnonimous | Server/AnalysisEngine.cs:97-127 | does what Merge says |
| AnalysisEngine.Engine.BestMatch | Server/AnalysisEngine.cs:176-187 | the inner loop computes Pick |
| AnalysisEngine.Engine.FindSameAnonimous | Server/AnalysisEngine.cs:164-195 | the outer loop does what MatchUpTo says |
| AnalysisEngine.Engine.HouseholdCleaning | Server/AnalysisEngine.cs:255-266 | the loop does what Cleaned says, and ends |
| Md5.BytesOfWord | ESP32/components/md5/md5.c:31-45 | to_int32 undoes to_bytes |
| Md5.WordOfBytes | ESP32/components/md5/md5.c:31-45 | to_bytes undoes to_int32 |
| Md5.PaddingInjective | ESP32/components/md5/md5.c:65-82 | different messages have different paddings |
| Md5.LengthReadBack | ESP32/components/md5/md5.c:79-82 | the last eight bytes of the padding are the length in bits modulo 2^64, low-order byte first (section 3.2 of RFC 1321) |
| Md5.Prepare | ESP32/components/md5/md5.c:70-82 | the buffer holds the padded message of sections 3.1 and 3.2, within its bounds |
| Md5.StepIsOperation | ESP32/components/md5/md5.c:99-121 | a step of the register-rotating loop is the operation of section 3.4 with its registers renamed |
| Md5.ChosenIsListed | ESP32/components/md5/md5.c:101-113 | the computed word numbers are those the four rounds list |
| Md5.ShiftIsListed | ESP32/components/md5/md5.c:22-26 | the shift table is that of the four rounds |
| Md5.RotatesLeft | ESP32/components/md5/md5.c:29 | all but the lowest c bits of the rotated word are all but the highest c bits of the word |
| Md5.RotatesRound | ESP32/components/md5/md5.c:29 | the lowest c bits of the rotated word are the highest c bits of the word |
| Md5.BitsOfF | ESP32/components/md5/md5.c:101-103 | F has the bits of the second word where the first has ones, and those of the third elsewhere |
| Md5.BitsOfG | ESP32/components/md5/md5.c:104-106 | G has the bits of the first word where the third has ones, and those of the second elsewhere |
| Md5.BitsOfH | ESP32/components/md5/md5.c:107-109 | H has the bits of the first word where the other two are the same, and the opposite ones elsewhere |
| Md5.BitsOfI | ESP32/components/md5/md5.c:110-112 | I has the bits of the second word where the third has ones and the first none, and the opposite ones elsewhere |
| Md5.Block | ESP32/components/md5/md5.c:86-127 | a block read within the buffer updates the registers as section 3.4 says |
| Md5.Md5 | ESP32/components/md5/md5.c:47-139 | the digest written is that of RFC 1321 |
| Md5Suite.EmptyDigest | ESP32/components/md5/md5.c:47-139 | the digest of the empty message is d41d8cd98f00b204e9800998ecf8427e (section A.5 of RFC 1321) |

## Left out

Throughout the file system:

- Serialization of pages: a page is a header, index entries and data bytes; the byte layout of headers and index entries is not modelled.
- Chunked copies: a page copy is one step of a method, though `Interrupted.HalfCopied` allows for any part of it.
- Failures of the flash driver: reads, writes and erases succeed. Lookup pages are read in full in `Lookup.FindInBlock` only; elsewhere entries are read from the table.
- Names, metadata, directories, user callbacks, the index map, and choosing an unused object id: ids are given.
- The write-only descriptor field `offset`, and descriptors without a score: descriptors are opened by name.
- Truncation to another size than 0, which no call asks for.
- Sizes of 2 GiB and more, for which signed sizes in the source overflow.
- The read cache under the file system: `ReadCache` shows that reads through it are raw reads, and `Nucleus` reads the flash directly. One cached descriptor is put on top of the file system in `Cached`; others on the same file are not.
- Repairs and restarts of the checker, and its third check, of object indices.
- `spiffs_vfs.c`, `esp_spiffs.c`, sockets, tasks, timers, the database, the user interface, and `PositionTools.cs`: the room triangulation finds is an input.

Contracts that say less than one might wish:

- Collect.GcCheck: what bytes the table of candidates leaves in the work buffer is not modelled. How many pages a run gains is given by the counters before and after it only.
- Modify.ModifyObject: that the work buffer is still what it was before the call is promised only if there is room without collecting garbage. A page that is not a header has its fields where a header has others; the model reads both alike, which makes no difference as its flags or its span give it away.
- Append.AppendObject: after a failed first append to an empty file its header holds size 0, which later writes cannot change.
- FileSystem.Run: leftovers in deleted pages do not count as readable, and whether a torn file can be mended is not said. Prices are upper bounds. A refused command, such as reading through a closed descriptor, is not an error.
- Mount.NextEraseCount: the branch for a flash without any erase count cannot be taken and is not modelled. Repairing one unerased block while mounting is not modelled.
- Mount.Mount: starts from consistent contents; what an interrupted operation leaves behind is left to the checker.
- Nucleus.Spiffs.GcQuick: with a limit above 0 it erases blocks that still have free entries, and the cursor may be in one; only the tables and counters are then promised to be right.
- Checker.PageCheckAll: where the source goes on for ever the method ends, after the 2^16 passes in which its offset comes back to 0.
- Objects.LoadIndex: validation of a loaded page that is not the right one is modelled but cannot happen on a file system in order.
- WriteBehind.Run: whether a cache page can be had, whether a seek past the cursor's index page finds it, and, to begin with, whether the size of the file is undefined, are inputs. Reads ask for at least one byte.
- Cached.Run: if it fails, nothing is said of the file itself but what `FileSystem.Run` says of the last access. Descriptors in append mode are in `WriteBehind` alone.
- Checker.EmptyFileRepaired: a reference to page 0xffff on a flash without such a page counts as one that does not match. The source reads a header there, beyond the file system, and what lies there decides; here it is taken not to be a page of that object and span.

The server:

- DictionaryStack.Stack.Pop: on an empty structure the source returns with its lock held, so that the structure must not be empty.
- DictionaryStack.Stack.UpsertAndConditionallyRemove: a condition that changes the value it is given becomes a function that also returns the new value; aliasing of stored values is not modelled.
- FileParser.FileParser.Receive: stations do not change rooms and rooms keep exact station counters; exceptions for rooms removed meanwhile, the parsing of lines, and all packet fields but hash, time and receptions are not modelled. Timestamps are in seconds, and the clock is an input.
- FileParser.IsReady: rooms are taken in the order they first appear, which is how the dictionary enumerates them.
- AnalysisEngine.Engine.AnalyzePacket: requested SSIDs, aliases, publishers and HT capabilities are not modelled; devices are values that are stored again after a change.
- AnalysisEngine.Engine.FindSameAnonimous: the similarity score is an arbitrary function, and the order in which the table is read out an input.
- AnalysisEngine.Engine.HouseholdCleaning: the time is an input, and the same throughout one pass.
- Md5.Md5: messages whose padding does not fit in 32 bits of size. The sines are not derived.
