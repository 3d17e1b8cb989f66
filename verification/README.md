# fsarchiver: a verified model of the archive engine

fsarchiver saves file systems and directories to an archive of one or more volumes and restores them.
This project models what lies between a directory tree and the bytes of the volumes, in both directions,
and proves what the program promises about it. The source is C; each component has its counterpart here.

- **Queue and threads** (`Queue`, `Pipeline`, `BlockTransform`). One thread fills a queue of headers and
  data blocks, several threads compress or decompress blocks in place, one thread takes items from the
  head. The queue is a class over a linked list; its critical sections are the steps of a transition
  system, and every interleaving is proved to deliver the same thing.
- **Archive format** (`Dico`, `Format`, `WriteBuf`, `ArchWriter`, `Reader`, `Volumes`, `VolumeChain`,
  `Archive`, `VolPath`, `Fletcher`). Dictionaries, checksummed headers and blocks, the volume splitter, and
  the reader with its search for the next magic after damage.
- **Object protocol** (`Walk`, `Nodes`, `OperSave`, `RegMulti`, `Dichl`, `DataFile`, `FileSystem`, `OperRestore`,
  `Overwrite`). Walking a tree, large files in blocks, small files packed into shared blocks, hard links; and
  the restore loop that rebuilds a file system from the stream, in an empty destination or over what is there.
- **Putting it together.** `Damage`, `Placement`, `SavedPuts`, `SaveRestore`, `RoundTrip`, `WholeTree`, `OneFile`,
  `Fragile` and `HardLinkOrder` relate the saved tree to the restored one, with and without damage to the
  stream. `ObjCodec`, `TreeEncoding`, `MainHeader`, `Arrived`, `EndToEnd` and `WholeArchive` carry this through
  the dictionaries, the compressing threads, the volumes and damage to their bytes; `Examples` has archives of
  given trees.

Classes and loops of the source are classes and loops here, each proved against a specification function;
the properties are lemmas about those functions. Compressors, cipher and MD5 are parameters. MD5 is never
assumed to be injective: where it matters, a statement says that the digests differ.

Where the code and `internals/FILEFORMAT` differ, the model follows the code:

- A volume is not "always a bit smaller" than the split size (lines 38-40): the split test leaves out the
  footer. A volume is longer than the split size if and only if its items leave less room than a footer takes
  (`Archive.VolumeExceedsIff`), and with a split size of 1 MiB this is true of the archive of a directory with
  one file (`Examples.TreeCanExceed`).
- Archive ids are meant to let an archive be stored within another. Between foreign bytes the next header is
  found if and only if no magic that the search meets stands less than eight bytes in front of it
  (`VolumeChain.HeaderFoundIff`). Four foreign bytes are enough to lose a header (`VolumeChain.StrayMagicLoses`).
- A thread whose transform fails exits and leaves its block in progress. A run without interruption delivers
  everything if and only if no transform fails; otherwise the thread that takes items waits for ever
  (`Pipeline.CompleteRunIff`), as it does when a build has not got the algorithm of a block
  (`EndToEnd.MissingAlgorithmHangs`).
- Inodes with several links are told apart by inode number and `st_rdev`, which is not the device number.
  Saving and restoring a tree is the identity exactly as long as these do not clash
  (`WholeTree.SaveThenRestoreTree`, `WholeTree.KeysCanClash`).
- Losing one object only costs that object when it is a large file or a bare header. Packed small files that
  have lost some of their headers end the restoration; without their block they take the next one for it, and
  if there is none the restoration ends; a file without its footer swallows the next record, unless that is a
  block; without footer and without some block it swallows the next header if at most one of its blocks is
  left behind the gap (`Fragile`).
- An excluded large file is read but not written. When one of its blocks is missing, whatever else than a
  directory stands at its path is removed (`Fragile.ExcludedRemoved`).
- A block whose checksum is wrong when it is decompressed is left as it is; the zeros that the code allocates
  for it are dropped (`BlockTransform.Decompressed`).
- The queue is full when it holds more than `blkmax` blocks, so it holds up to `blkmax + 1` (`Pipeline.FillsUp`).
- The size of data blocks depends on the compression level; the text names 256 KB and a threshold of 64 KB.

## Model

| member | source | states |
|---|---|---|
| WholeArchive.DamagedArchiveRestored | src/oper_restore.c:976-1040 | alter the stored data of any set of blocks (same length, other checksum, no header of this archive in them) and the dictionaries, archive ids, magics or filesystem ids of any headers but those listed below, in an archive with any other filesystems beside the one asked for: in every complete run of the reading side the archive is read to its end and everything is restored - contents, attributes, shared inodes - but the objects to which those blocks and headers belong; damaged files are counted one by one |
| WholeArchive.ArchiveRoundTrip | src/oper_save.c:831-857 | tree to volumes and back, through any complete run of the threads: the restored file system is the saved tree if and only if no two devices have multiply linked files with the same inode number and st_rdev |
| WholeArchive.TreeRoundTrip | src/oper_save.c:742-857 | the same from a directory tree on, with any exclusions at save time: every node that is not excluded on the way to it stands restored under its own path, with its type, attributes and contents, names share an inode if and only if they did, and nothing else is there but the directories above, if and only if the keys of hard links do not clash |
| WholeArchive.MainHeaderFits | src/oper_save.c:859-921 | what is required of the main header holds for the header that the program writes and every split size that it accepts |
| MainHeader.AcceptedSplitsRoundTrip | src/fsarchiver.c:249-262 | with no splitting or any whole number of MiB, the archive that starts with the main header is read back, whatever its label, password check and other fields |
| MainHeader.MainSmall | src/oper_save.c:879-914 | the main header fits its length fields, takes less than 64 KiB and carries the archive id |
| MainHeader.MainFields | src/oper_save.c:879-894 | the fields of the main header, in this order |
| Examples.TreeCanExceed | src/archwriter.c:327-345 | for any such main header and a split size of 1 MiB, a directory with one file whose archive is a single volume that is longer than the split size by a footer |
| WholeArchive.TreesFit | src/oper_save.c:416-576 | every tree with short paths and ordinary attributes can be archived, given a supported compressor and a working cipher |
| TreeEncoding.SavedTreeFits | src/dico.c:70-122 | every record of such a tree fits its dictionary or its block: keys are distinct, counts and lengths within their fields |
| TreeEncoding.HeadFitsDico | src/oper_save.c:416-446 | no key is used twice in an object header, and the header fits its length field |
| Examples.SampleIsOk | src/oper_save.c:831-857 | a job with two filesystems and a tree that meet everything required above |
| Examples.RootHeaderBytes | src/writebuf.c:191-228 | the bytes of the header of a root directory |
| Examples.SampleDamaged | src/archreader.c:523-543 | altering the only byte of its shared block is damage as required above, is seen, and costs the contents of that file |
| WholeArchive.WrittenInAnyRun | src/thread_archio.c:63-92 | the writing thread takes the same items in every complete run of the compressing threads, so the volumes do not depend on scheduling |
| WholeArchive.RecordsRead | src/thread_archio.c:172-262 | the restoring thread receives exactly the saved records that arrive, in order, blocks that were altered being zeros of the same size |
| RoundTrip.SaveThenRestore | src/oper_save.c:517-547 | save then restore is the identity on contents, attributes and inode sharing, for every unchanging tree, if and only if the hard-link keys do not clash |
| WholeTree.SaveThenRestoreTree | src/oper_save.c:742-829 | save then restore gives back every directory tree with proper, distinct names, node by node and for any exclusions at save time, if and only if the hard-link keys do not clash; said of positions in the tree, not of the walk |
| WholeTree.TreeIffFaithful | src/oper_save.c:742-829 | a file system is the tree node by node if and only if it is faithful to the visits of the walk |
| Nodes.NodeVisited | src/oper_save.c:773-823 | each node at any depth that no excluded name or path leads to is visited under the names joined on the way, with its own type, size, attributes, inode numbers and data |
| Nodes.VisitHasNode | src/oper_save.c:773-823 | every visit is of such a node |
| Nodes.VisitedBefore | src/oper_save.c:742-829 | a directory is visited before what is in it, and an entry with all that is in it before the next entry |
| Nodes.VisitsInOrder | src/oper_save.c:742-829 | the same the other way round: the order of the visits is that of their nodes |
| Nodes.PathsApart | src/common.c:60-71 | different nodes have different paths |
| WholeTree.KeysCanClash | src/oper_save.c:520-530 | a directory with two multiply linked files on two devices that comes back with the first file's contents in both |
| RoundTrip.DamagedTreeFaithful | src/oper_restore.c:991-1037 | for every damaged stream (junk, lost headers, lost or altered blocks, altered shared blocks) and any exclusion at restore: what is restored equals the source, less the lost objects, the hard links to them, and the contents of altered small files; a lost directory comes back with default attributes if and only if something below it is restored or tried |
| RoundTrip.DamageIsContained | src/oper_restore.c:976-1040 | the restore loop comes to the end marker of every such stream; the file errors are the files that are not excluded and have a missing or altered block, the link errors the links that are met and are excluded or lack their file, each counted once; also for trees whose hard-link keys clash |
| OneFile.OneFileDropped | src/oper_restore.c:799-897 | losing any non-empty set of blocks of one large file removes that file and its links, counts exactly one file error, and leaves all else as saved |
| Fragile.PackHeadersLost | src/oper_restore.c:617-633 | of packed files, losing all headers skips the block, losing some but not all of them ends the restoration |
| Fragile.PackWithoutCount | src/oper_restore.c:612-615 | a packed file whose header does not say how many there are ends the restoration |
| Fragile.PackTooLarge | src/oper_restore.c:621-636 | a pack that is said to have more than 512 files ends the restoration too |
| RoundTrip.LostLinksCounted | src/oper_restore.c:427-483 | the link errors are exactly the paths of hard links that were met and could not be made |
| SaveRestore.ErrorsAreDamaged | src/oper_restore.c:887-897 | the file errors are exactly the damaged files that are not excluded |
| Fragile.PackBlockLost | src/oper_restore.c:636-645 | a pack without its block takes the next record for it if that is a block that fits, and goes on behind it; otherwise the restoration ends |
| Fragile.WrongBlock | src/oper_restore.c:650-734 | cut out of a block with other contents no packed file is taken for restored; each one that is not excluded is counted as an error |
| Fragile.FooterLost | src/oper_restore.c:844-871 | with any exclusions and anything behind it, a non-empty large file of which all blocks arrive, altered or not, but no footer swallows the next record if and only if that is not a block; unless a footer comes next the file keeps what arrived and is counted as an error |
| Fragile.BlockAndFooterLost | src/oper_restore.c:799-881 | a large file without footer and without some block is dropped, and swallows the header behind it if and only if at most one of its blocks arrives behind the first missing one |
| Fragile.FooterLostAtEnd | src/oper_restore.c:844-871 | the swallowed header can be the end marker: the restoration then fails |
| Fragile.ExcludedRemoved | src/oper_restore.c:799-881 | restoring removes what stands at the path of an excluded large file if and only if a block of the file is missing and it is no directory; nothing else changes |
| HardLinkOrder.LinksFollowTheirFiles | src/oper_save.c:518-542 | every hard link record stands behind the header of the large file whose path it names, although small files are written late |
| SavedPuts.SavedPutsExact | src/oper_save.c:676-734 | the saved stream has exactly one object for every visit, none lost or doubled by packing; links to an inode seen before become links to its first path |
| SavedPuts.LookupIsFirst | src/dichl.c:112-135 | the dictionary of hard links answers with the path of the first visit of the key |
| OperSave.PacksAreGreedy | src/oper_save.c:122-136 | the shared blocks of a saved tree are the greedy division of the small files in walk order |
| OperSave.PackingIsOptimal | src/oper_save.c:122-136 | every shared block but the last holds 512 files or is more than three quarters full, and no division in the same order needs fewer blocks |
| OperSave.SaveVisitOk | src/oper_save.c:578-740 | every saved object keeps the saving state consistent: packs within 512 files and one block, distinct hard-link keys |
| OperSave.PackFileOk | src/oper_save.c:132-136 | a small file always fits after the full block has been written |
| OperSave.Saver.constructor | src/oper_save.c:831-845 | an empty saving state |
| OperSave.Saver.ObjRegfileUnique | src/oper_save.c:141-259 | queues header, consecutive blocks of the contents padded to the size in the header, and a footer with the digest unless the file is empty; reports a file that ended early |
| OperSave.Saver.ReadBlock | src/oper_save.c:183-207 | what is read at a position, zeros behind the end of the file |
| OperSave.Saver.ObjRegfileMulti | src/oper_save.c:86-139 | adds the padded contents and their digest to the shared block, writing a full block first |
| OperSave.Saver.EnqueueShared | src/oper_save.c:123-130 | the waiting small files become records, and the shared block is empty |
| OperSave.Saver.ItemStdattr | src/oper_save.c:516-553 | classifies a file as hard link, packed or large and notes first links |
| OperSave.Saver.SaveContents | src/oper_save.c:640-737 | header and contents of one object by its type, errors counted |
| OperSave.Saver.SaveFile | src/oper_save.c:578-740 | one visit changes the saving state as specified and queues exactly the records of the new units |
| OperSave.Saver.SaveDirectory | src/oper_save.c:742-829 | the recursive walk saves the directory and its entries in depth-first order, without the excluded ones |
| OperSave.Saver.SaveEntry | src/oper_save.c:773-823 | one directory entry, unless its name or path is excluded |
| OperSave.Saver.SaveDirectoryWrapper | src/oper_save.c:831-857 | the queue holds the stream of the whole tree, the last shared block included |
| OperSave.IdsCount | src/oper_save.c:421 | objects are numbered in the order of the walk, in 64 bits that wrap around |
| OperSave.HeaderSaved | src/oper_save.c:516-553 | the header has all that is known of the object; a file met before is a link to a path noted for its keys, one with a single link, not empty and smaller than a quarter of a block and than 128 KiB is packed, any other has blocks of its own |
| OperSave.VisitSaved | src/oper_save.c:578-740 | one visit uses one id, notes the first path of an inode with several links, counts what could not be read, and adds one object: by itself, to the pack that waits, or to a new pack |
| OperSave.BlocksOfFile | src/oper_save.c:180-229 | block k of a large file has the bytes from k times the block size on |
| Walk.WalkDistinct | src/oper_save.c:773-823 | no path is visited twice |
| Walk.WalkShaped | src/oper_save.c:742-829 | in a walk only directories are above anything |
| Walk.Apart | src/common.c:60-71 | different names in a directory lead to different paths for everything below them |
| Walk.ConcatenatePaths | src/common.c:60-71 | joins directory and name with exactly one slash |
| Walk.JoinName | src/common.c:60-71 | a name is set off by one slash, whether the directory ends in one or the name begins with one |
| Dichl.Dichl.Add | src/dichl.c:60-110 | appends an entry unless the keys are taken |
| Dichl.Dichl.Get | src/dichl.c:112-135 | finds the first entry with the keys, if the buffer has room |
| Dichl.Lookup | src/dichl.c:112-135 | something is found if and only if an entry has both keys |
| Dichl.LookupSnoc | src/dichl.c:60-110 | a new entry answers for its own keys only, and what was found stays found |
| RegMulti.OffsetsTile | src/regmulti.c:139-160 | the offsets written into the headers tile the shared block exactly |
| RegMulti.UnpackOwnBytes | src/regmulti.c:216-247 | unpacking gives every file its own bytes |
| RegMulti.BlocksWellFilled | src/oper_save.c:122-136 | blocks closed by the space test hold 512 files or are more than three quarters full |
| RegMulti.FewestBlocks | src/regmulti.c:73-85 | no division in order of arrival uses fewer blocks |
| RegMulti.RegMulti.SaveAddFile | src/regmulti.c:87-110 | accepts a file if and only if there is room, and appends its header and bytes |
| RegMulti.RegMulti.SaveEnqueue | src/regmulti.c:112-179 | all headers with count and offset, then the shared block; nothing for no files |
| RegMulti.RegMulti.EnoughSpaceForNewFile | src/regmulti.c:73-85 | true if and only if one more file of that size fits by count and by size |
| RegMulti.RegMulti.RestAddHeader | src/regmulti.c:181-196 | collects up to 512 headers |
| RegMulti.RegMulti.RestSetDataBlock | src/regmulti.c:198-214 | takes the shared block if it fits |
| RegMulti.RegMulti.RestGetFile | src/regmulti.c:216-247 | header and slice of the file with this index |
| Greedy.FillOptimal | src/thread_archio.c:63-92 | filling bins in order of arrival needs no more bins than any other order-preserving division |
| Greedy.FillKeepsItems | src/thread_archio.c:63-92 | nothing is lost, repeated or reordered by filling bins |
| DataFile.DataFile.Write | src/datafile.c:117-157 | sparse or not, the file differs from what was written at most by a missing tail of zeros |
| DataFile.DataFile.Close | src/datafile.c:159-202 | after closing, a sparse file has exactly the contents and length of a dense one |
| DataFile.DataFile.IsBlockZero | src/datafile.c:105-115 | true if and only if every byte is zero |
| DataFile.WriteAll | src/datafile.c:117-157 | any sequence of blocks, sparse or dense, leaves their concatenation |
| FileSystem.MkdirRecursive | src/common.c:106-125 | makes every missing directory above a path, one after the other |
| FileSystem.ParentsMade | src/common.c:106-125 | afterwards all directories above the path are there, unless something else than a directory is in the way, and nothing else has changed |
| OperRestore.Restorer.RestoreObjRegfileUnique | src/oper_restore.c:741-898 | restores, removes or skips a large file and consumes blocks and footer as specified |
| OperRestore.Restorer.ReceiveBlocks | src/oper_restore.c:797-829 | the block loop: takes blocks while their offsets continue the file |
| OperRestore.Restorer.RestoreObjRegfileMulti | src/oper_restore.c:583-739 | collects the headers of a pack and their block, then restores file by file |
| OperRestore.Restorer.RestoreSmallFile | src/oper_restore.c:650-734 | a packed file with the right digest is written with its attributes, one with a wrong digest is emptied |
| OperRestore.Restorer.RestoreObjHardlink | src/oper_restore.c:427-483 | links to the first path or counts an error |
| OperRestore.Restorer.RestoreObjOther | src/oper_restore.c:485-581 | creates directories and special files or counts an error |
| OperRestore.Restorer.RestoreObject | src/oper_restore.c:900-974 | dispatch by object type; only packed files can end the restoration |
| OperRestore.Restorer.ExtractReadObjects | src/oper_restore.c:976-1040 | the loop over the stream: skips what is neither object nor end marker, counts objects of other filesystems, fails at the end of the queue |
| Overwrite.LargeOver | src/oper_restore.c:741-898 | in any file system where the path of an intact large file is free or a regular file, below directories only, the file stands there afterwards with what was saved, counted once, in place of what was there; every other name is as it was, but for other names of the file that was there, and missing directories above |
| Overwrite.UniqueOver | src/oper_restore.c:831-897 | the same for blocks that arrived whole, whatever comes next: only the right digest keeps the file, a wrong one removes it, and one error is counted |
| Overwrite.BrokenOver | src/oper_restore.c:797-829 | a large file with a missing block is not there afterwards, even if a file was there before |
| Overwrite.SmallOver | src/oper_restore.c:650-734 | a packed file takes the place of whatever file was there; with a wrong digest an empty one does and an error is counted |
| Overwrite.SmallRefused | src/oper_restore.c:650-672 | a packed file without digest or outside its block is an error and changes nothing but directories above; an excluded one is none |
| Overwrite.LinkOver | src/oper_restore.c:427-483 | a link is made if and only if it is not excluded, its path is free and its target is there and no directory; otherwise one error |
| Overwrite.OtherOver | src/oper_restore.c:485-581 | a directory may be there already and takes the attributes; anything else is made if and only if its path is free |
| Overwrite.NothingUnderFiles | src/oper_restore.c:485-581 | below something that is no directory nothing is restored, and each try is one error of its kind |
| Overwrite.LastName | src/oper_restore.c:797-829 | removing a name takes the inode with it exactly if it has no other name |
| Damage.StreamRestored | src/oper_restore.c:991-1037 | every damaged stream comes to the effects of its units, one after the other, whatever is put in front of them |
| Damage.LargeRestored | src/oper_restore.c:797-897 | a large file is restored if all blocks arrive and the digest is right, else removed and counted once; reading goes on behind its footer either way |
| Damage.SharedRestored | src/oper_restore.c:601-734 | packed files with unaltered bytes are restored, the others emptied and counted |
| Damage.SkipJunk | src/oper_restore.c:992-1009 | junk in front of an object is skipped; only objects of other filesystems in it are counted |
| Placement.RunPlaces | src/oper_restore.c:427-483 | after any run of restored objects each is where it was put, with its own inode, and nothing else is there but the directories above what was tried |
| Placement.RunCounts | src/oper_restore.c:887-897 | each counter is exact: lost files and links that cannot be made are counted once as errors, restored files, links and other objects once by their kind |
| SaveRestore.StreamHarmed | src/oper_restore.c:855-871 | an object is lost or emptied exactly when its own header, blocks or bytes were, as far as digests show it |
| Arrived.ArrivedIsHarm | src/archreader.c:523-543 | blocks replaced by zeros, and blocks and headers that do not arrive, are damage of the objects they belong to and of nothing else |
| Arrived.BlindRead | src/oper_restore.c:799-823 | restoring does not depend on the filesystem ids of blocks, which the reader does not hand on |
| ObjCodec.HeadRoundTrip | src/oper_save.c:420-573 | every object header, its items in the order of the code, is read back from its dictionary as it was written |
| ObjCodec.RecRoundTrip | src/oper_restore.c:910-916 | the same for all records |
| ObjCodec.NoObject | src/oper_restore.c:910-917 | without a path, a size or a known type there is no object |
| EndToEnd.StreamDelivered | src/thread_comp.c:294-323 | behind compression, reading and decompression stand the saved records, in order, and no decompression fails |
| EndToEnd.DequeuesAgree | src/queue.c:487-611 | with the records that wait in the queue, both dequeue operations take the next one if it is of their kind and leave everything as it is otherwise |
| EndToEnd.TakenIsExpected | src/queue.c:425-484 | in any complete run the consumer takes every item, transformed, in order |
| EndToEnd.RunCanEnd | src/thread_comp.c:294-323 | every run can be carried on to a complete one |
| Pipeline.Refinement | src/queue.c:189-351 | in every interleaving, what has left the queue followed by what is in it (blocks taken as transformed) is what was added, in order, each block transformed exactly once; at most blkmax + 1 blocks are queued |
| Pipeline.StepInv | src/queue.c:692-735 | every step - add, end, abort, claim, finish, take, destroy - keeps the queue invariant: numbers in order, PROGRESS items and busy threads in bijection, bounded occupancy |
| Pipeline.ReplaceFindsClaimed | src/queue.c:320-352 | a thread that writes its block back finds exactly the item it claimed, still in progress |
| Pipeline.NoDeadlock | src/queue.c:378-423 | while work is left, some ordinary step is enabled, given one live thread and a transform that never fails |
| Pipeline.StepDrains | src/thread_comp.c:300-322 | every step lowers the weighted amount of work left |
| Pipeline.RunsAreBounded | src/thread_archio.c:63-92 | no run has more than four steps per item and one more |
| Pipeline.CompleteRun | src/thread_comp.c:294-323 | a run that cannot go on has delivered every item, transformed, in order |
| Pipeline.StuckIff | src/thread_comp.c:300-322 | where no ordinary step is left, the queue is at its end if and only if no thread has died, and otherwise the taking thread waits |
| Pipeline.FillsUp | src/queue.c:219-224 | a producer that nobody answers fills the queue with one block more than its limit |
| EndToEnd.FailureHangs | src/thread_comp.c:300-322 | one block that no thread can transform makes the taking thread wait for ever in every complete run |
| EndToEnd.MissingAlgorithmHangs | src/thread_comp.c:209-275 | a stored block of an algorithm that the build lacks, and a run that ends that way |
| BlockTransform.UnknownAlgorithm | src/thread_comp.c:209-275 | an unaltered block cannot be decompressed by a build without its algorithm |
| Pipeline.CompleteRunIff | src/thread_comp.c:294-323 | a run without interruption that cannot go on has delivered everything if and only if no transform fails; otherwise the taking thread waits for ever |
| Queue.Queue.constructor | src/queue.c:46-77 | an empty queue, numbering from one |
| Queue.Queue.Add | src/queue.c:189-318 | refuses after the end, waits while more than blkmax blocks are queued, else appends with the next number; both counters stay exact |
| Queue.Queue.ReplaceBlock | src/queue.c:320-352 | changes the entry with that number and no other |
| Queue.Queue.GetFirstBlockTodo | src/queue.c:378-423 | claims the first unclaimed block |
| Queue.Queue.DequeueFirst | src/queue.c:425-484 | takes the head when it is done |
| Queue.Queue.DequeueBlock | src/queue.c:487-535 | takes the head if it is a block; a header stays |
| Queue.Queue.DequeueHeader | src/queue.c:559-611 | takes the head if it is a header; a block stays |
| Queue.Queue.CheckNextItem | src/queue.c:633-689 | says what the head is and changes nothing |
| Queue.Queue.DestroyFirstItem | src/queue.c:692-735 | drops the head unless a thread works on it |
| Queue.Queue.CountItemsTodo | src/queue.c:354-376 | the number of queued blocks that are not done |
| Queue.Queue.SetEndOfQueue | src/queue.c:107-119 | sets the end mark and nothing else |
| BlockTransform.TransformInverse | src/thread_comp.c:171-292 | decompression undoes compression for every compressor that may fail, run out of memory or expand, and every length-preserving cipher |
| BlockTransform.CompressedOk | src/thread_comp.c:43-169 | stored sizes never exceed the original, and size fields and checksum describe the stored data |
| BlockTransform.WhatIsStored | src/thread_comp.c:43-169 | exactly when compression fails, and otherwise what is stored: the compressed data if they are smaller, of the second algorithm if the first ran out of memory, else the data as they are; encrypted if and only if that is asked for |
| BlockTransform.EncryptedIfAsked | src/thread_comp.c:144-158 | with a password every block is marked and stored as encrypted, and no reader without one gets anything out of it |
| BlockTransform.WhatIsDecompressed | src/thread_comp.c:190-292 | what becomes of blocks with a wrong checksum, without a password, with a wrong one, and of data that the algorithm gives up |
| BlockTransform.BlockInfo.TryCompress | src/thread_comp.c:58-138 | at most two attempts, the second after running out of memory |
| BlockTransform.BlockInfo.Compress | src/thread_comp.c:43-169 | the whole new block |
| BlockTransform.BlockInfo.Decompress | src/thread_comp.c:171-292 | the whole new block, or failure |
| Fletcher.Fletcher32 | src/common.c:226-245 | the batched loop never leaves 32 bits, and each half is the representative in 1..65535 of the byte sum and of the sum of prefix sums |
| Fletcher.OneTwoThree | src/common.c:226-245 | the checksum of three bytes |
| Fletcher.CollisionIff | src/common.c:226-245 | two buffers collide exactly when both sums agree modulo 65535 |
| Fletcher.OneByteDetected | src/archreader.c:224-231 | changing one byte always changes the checksum |
| Fletcher.TwoBytesUndetectedIff | src/common.c:226-245 | exactly which changes of two bytes go unnoticed |
| Fletcher.TwoNearBytesDetected | src/archreader.c:523-524 | any change of two bytes at most 256 apart is noticed |
| Fletcher.DistanceBoundSharp | src/common.c:226-245 | swapping 0 and 255 at distance 257 is not |
| Dico.Dico.AddGeneric | src/dico.c:70-122 | appends, or refuses a repeated section and key |
| Dico.Dico.GetGeneric | src/dico.c:129-168 | the result of a lookup, with each of its errors |
| Dico.Dico.CountAllSections | src/dico.c:185-197 | the exact number of items |
| Dico.GetItemAt | src/dico.c:199-275 | in a dictionary with unique keys each item is found, and little-endian numbers are read back |
| Format.BodyRoundTripIff | src/archreader.c:164-267 | a dictionary is parsed back from its bytes if and only if it has at most 65535 items |
| Format.DicoRoundTrip | src/writebuf.c:89-189 | the same with length and checksum, in front of any bytes |
| Format.HeaderRoundTrip | src/writebuf.c:191-228 | a header comes back with magic, filesystem id and ordered items, and exactly its bytes are consumed |
| Format.BlockDataRead | src/archreader.c:435-545 | stored data are read back; data with another checksum become zeros of the original size, and are searched for headers |
| Format.BlockCut | src/archreader.c:435-545 | data that are cut off stop the reader, unless they are skipped, and so does a block larger than any may be |
| Format.OtherArchive | src/archreader.c:320-335 | a header of another archive is a minor error, met behind its id |
| Format.DicoCut | src/archreader.c:164-267 | no proper part of a dictionary is taken for one |
| Format.HeaderCut | src/archreader.c:269-348 | nor is a proper part of a header for one |
| Format.NoHeader | src/archreader.c:284-318 | without a magic nothing is read, at the place or with searching |
| Format.RepeatedKeys | src/archreader.c:164-267 | a dictionary with a section and key twice is refused |
| WriteBuf.WriteBuf.AddDico | src/writebuf.c:89-189 | appends length, items and checksum |
| WriteBuf.WriteBuf.AddHeader | src/writebuf.c:191-228 | appends magic, archive id, filesystem id and dictionary |
| WriteBuf.WriteBuf.AddBlock | src/writebuf.c:230-274 | appends the block header and the stored data |
| WriteBuf.WriteBuf.AddData | src/writebuf.c:63-87 | appends bytes |
| WriteBuf.WriteBuf.FillBuffer | src/writebuf.c:128-160 | the cursor loop fills the buffer with exactly the printed items |
| ArchWriter.ArchWriter.DoWrite | src/archwriter.c:372-430 | an item goes in one piece to the current volume, or to a new one if the volume with the item would exceed the split size |
| ArchWriter.ArchWriter.SplitCheck | src/archwriter.c:327-345 | true if and only if the items of the volume and the next one do not fit beside a volume header; the footer is left out |
| ArchWriter.ArchWriter.SplitIfNecessary | src/archwriter.c:347-370 | closes the volume with a footer and opens the next with its header |
| ArchWriter.ArchWriter.WriteVolHeader | src/archwriter.c:246-285 | appends the header of the current volume |
| ArchWriter.ArchWriter.WriteVolFooter | src/archwriter.c:287-325 | appends the footer, with the last-volume mark |
| ArchWriter.ArchWriter.Run | src/thread_archio.c:58-98 | the volumes hold the items in order; volume k starts with header k, and only the last footer is marked as last |
| Archive.VolumeChainRoundTrip | src/thread_archio.c:137-262 | reading the volumes gives exactly the items of the wanted filesystems and the global headers, if and only if the first volume has room for the main header |
| Archive.DamageContained | src/archreader.c:523-543 | altered block data cost exactly those blocks: zeros of the same size, status done; an altered dictionary, archive id or magic costs its header and the block behind it; everything else is read as written |
| Archive.ErrorsCounted | src/thread_archio.c:172-262 | unless altered bytes look like headers, the reading thread counts one error for each wanted block with altered data and for each altered dictionary, and none for anything else |
| Archive.NearBytesAreDamage | src/archreader.c:523-524 | altering one or two near bytes of a block is damage of this kind, if it makes up no header |
| Archive.VolumeSize | src/archwriter.c:246-345 | the length of every volume is that of its header, its items and its footer |
| Archive.VolumeExceedsIff | src/archwriter.c:327-345 | a volume is longer than the split size if and only if header and items leave less room than a footer takes |
| Archive.FilledExactly | src/archwriter.c:327-345 | items that fill a volume up to the split size make it one footer longer than that |
| Archive.VolumesBounded | src/archwriter.c:327-345 | no volume is longer than the split size and one footer, but for a volume of a single item that alone exceeds the split size |
| Archive.FewestVolumes | src/archwriter.c:347-430 | no order-preserving division into volumes that keep to the split size uses fewer |
| Volumes.VolHeadRead | src/archreader.c:350-433 | a volume header is accepted if and only if the volume number is the expected one and the archive id and the format are those of the volumes before, if there were any |
| Volumes.FootFields | src/archwriter.c:303-306 | a footer gives the number of its volume, the archive id, and whether it is the last |
| Reader.VersionNamed | src/archreader.c:100-115 | a volume is of version 1 or 2 exactly if the name of the format stands at offset 40 or 42, and version 1 comes first |
| Volumes.RecognisedAsFormat2 | src/archreader.c:100-115 | every written volume is recognised as format 2 |
| Volumes.FormatNameAt42 | src/archreader.c:100-115 | the format name stands at offset 42 |
| VolPath.PathsDistinct | src/common.c:597-620 | no two volumes of an archive share a path |
| VolPath.VolumeNamed | src/common.c:597-620 | the first volume has the path of the archive; volume k has it too but for the last two characters, in place of which its number stands in decimal, with two digits up to 99 |
| VolumeChain.ReadDamagedArchive | src/thread_archio.c:172-262 | from volumes of good, altered and foreign pieces, blocks without their header among them, the reader recovers every good item, in order, up to the end |
| VolumeChain.ReadUpToMissing | src/thread_archio.c:172-262 | when a volume is missing, everything in the volumes before it is read, and the archive is reported as incomplete |
| VolumeChain.ResyncIsLeast | src/archreader.c:291-318 | the search stops at the least offset that holds a magic, or fails when there is none |
| VolumeChain.MagicsDoNotOverlap | src/fsarchiver.c:44-46 | no proper suffix of a magic is a prefix of another |
| VolumeChain.ResyncPastClean | src/archreader.c:291-318 | bytes without a magic never hide the header behind them, not even together with it |
| VolumeChain.HeaderFoundIff | src/archreader.c:291-335 | among bytes whose magics all belong to other archives, the next header is found if and only if no magic that the search meets stands less than eight bytes in front of it; otherwise reading goes on inside that header |
| VolumeChain.StrayMagicHides | src/archreader.c:320-335 | a bare magic hides any header of an archive whose id is not made up of the bytes of that header's magic |
| VolumeChain.StrayMagicLoses | src/archreader.c:320-335 | an object header that is read, and is lost without a trace but one error behind four foreign bytes |
| Reader.ArchReader.Open | src/archreader.c:62-120 | the format version 1 or 2 of a volume by its first 64 bytes, or that it is none |
| Reader.ArchReader.ReadDico | src/archreader.c:164-267 | a dictionary, a minor error for a wrong checksum, or a fatal error |
| Reader.ArchReader.FindMagic | src/archreader.c:284-318 | the search loop implements the resynchronisation |
| Reader.ArchReader.ReadHeader | src/archreader.c:269-348 | the next header of this archive, or the error |
| Reader.ArchReader.ReadVolHeader | src/archreader.c:350-433 | checks magic, archive id, volume number and format |
| Reader.ArchReader.ReadBlock | src/archreader.c:435-545 | reads or skips a block; zero-fills and rewinds after a wrong checksum |
| Reader.ArchReader.Run | src/thread_archio.c:114-272 | the whole reading thread: what is queued, how many errors, and whether the end was reached |

## Left out

- Format version 1 (16-bit header lengths): recognised by `Reader.ArchReader.Open`, and not read on; nothing writes it.
- Compressors, cipher and MD5 are parameters; only the laws named in `BlockTransform.CodecOk` are assumed of them.
- Command line, logging, progress and cost figures, signals, and the prompt for a missing volume.
- Creating, probing and mounting file systems, and the headers that describe them (`MAIN`, `FSIN`, `FSYB`, `DIRS`): here they are the prefix of an archive, of which only the archive id is read.
- File errors on the saving side other than a file that ends early: a file or directory that cannot be opened, read or examined, and the archive's own volume, which is not saved into itself.
- File errors on the restoring side: writing and setting attributes succeed, and a path is refused only for what is already there under it or above it.
- The times of directories, which the code sets back after every object in them. Paths are compared as strings, so symbolic links above a path are in the way like any other object that is no directory.
- Extended attributes, owners, modes, times, link texts and device numbers are carried along as dictionary items and not looked into.
- Several directories saved in one run share the object counter, which is a parameter, and nothing else; one walk is modelled.
- Timed waits are steps that are not enabled; the clock is not modelled. Allocation failure is not modelled.
- Encrypted data of 4 GiB or more are treated as a failure of the cipher.
- TreeEncoding.SavedTreeFits: asks for paths shorter than 4096 bytes without zero bytes and for at most 28672 attributes per object; the limit of a dictionary is 65535 items, but the code reads the names of all attributes into 4096 bytes.
- WholeArchive.DamagedArchiveRestored: one filesystem is asked for. It asks that volume headers and footers, the headers in front of the filesystems and the end marker are whole, that no altered magic or filesystem id is another one that is asked for, that items of which nothing is left to recognise do not follow one another or altered data, that a large file with its header has its footer, and that packed files have all or none of their headers, and their block if they have headers; what happens otherwise is stated in `Fragile`, for single objects. It also asks that no compression or encryption fails (`Pipeline.CompleteRunIff` says what happens then), and that altered bytes hide no header (`VolumeChain.HeaderFoundIff`).
- RegMulti.RegMulti.RestGetFile: a slice that does not lie within the shared block is treated as a failure; the code copies whatever its buffer holds.
- Reader.ArchReader.ReadDico: an item that runs over the end of its dictionary, and a number whose stored size differs from its type, are treated as errors; the code reads on.
- Reader.ArchReader.Run: filesystem ids index a table of 128 entries in the code; here any predicate on ids says what is wanted.
- OperRestore.Restorer.RestoreObjRegfileUnique: for a file that cannot be opened the code compares the footer with a digest it never computed; the model takes it for an error without removing anything.
- VolPath.VolumePath: paths of volumes are modelled on strings; symbolic links and the resolution of the first path are not.
- Queue.Queue.Add: a call that has waited looks at the end mark again; the code looks at it before it waits only. This differs only when the queue is ended by another thread meanwhile.
- Pipeline.StepInv: the thread that ends the queue is the thread that fills it, or an interrupted main thread.
- OperSave.Saver.ObjRegfileUnique: a file that cannot be opened, or read at some position; the latter leaves a file without footer, of which `Fragile.BlockAndFooterLost` says what becomes.
- OperSave.Saver.ObjRegfileMulti: a file that cannot be opened or read.
- DataFile.DataFile.Write: failing writes and seeks.
- DataFile.DataFile.Close: failing truncation and closing.
- OperRestore.Restorer.ReceiveBlocks: a failing write, which ends the restoration; the same for OperRestore.Restorer.RestoreObjRegfileMulti.
- OperRestore.Restorer.RestoreObjRegfileMulti: see OperRestore.Restorer.ReceiveBlocks.
- OperSave.Saver.SaveContents: errors when reading attributes, opening or reading a file are not modelled; neither are they in OperSave.Saver.SaveFile, which also skips the archive's own volume.
- OperSave.Saver.SaveFile: see OperSave.Saver.SaveContents.
- OperSave.Saver.SaveDirectory: a directory that cannot be opened or examined.
- OperSave.Saver.SaveEntry: an entry that cannot be examined.
- OperRestore.Restorer.RestoreSmallFile: failures of writing and of setting attributes.
- OperRestore.Restorer.RestoreObjHardlink: failures of setting attributes.
- OperRestore.Restorer.RestoreObjOther: failures of setting attributes, and symbolic links of NTFS.
- OperRestore.Restorer.RestoreObject: headers without path, type or size end the code; here they are not headers of objects (`ObjCodec.DecHead`).
- RegMulti.RegMulti.SaveEnqueue: a queue that refuses the records.
- WriteBuf.WriteBuf.AddData: a buffer that cannot grow.
- VolPath.PathsDistinct: strings are compared as they are before the first path is resolved.
