# Models of libfuse's node layer, request interrupts, buffer copies and option groups, and of a shell parser

The repository vendors libfuse 2.9.3 (`Assignment-4/fuse-2.9.3/lib`) and holds a small shell
whose parser is `Assignment-2/Parser/parse.c`. These Dafny modules model the parts of
both that carry the most state, and prove what those parts promise.

| file | what it models |
|---|---|
| `Common.dfy` | an option type and sequences without repetition |
| `PosixLocks.dfy` | the byte-range lock list of a node: `locks_insert`, `locks_conflict` |
| `LinearHash.dfy` | the incrementally resized hash tables `id_table` and `name_table` |
| `NodeGraph.dfy` | ids, names, reference and lookup counts of nodes, and the cascade that frees them |
| `TreeLocks.dfy` | path locks: the words, the account of outstanding locks, and the state machine of all operations |
| `DeadEnds.dfy` | nodes without a path to the root, and why they stay so |
| `LookupBalance.dfy` | the account of lookups between the kernel and the nodes, over runs |
| `LockedNames.dfy` | the names that path locks are taken for, and that they stay |
| `PathBuffer.dfy`, `PathWalk.dfy` | the buffer that grows backwards, the walk to the root and the path it spells |
| `PathQueue.dfy`, `FuseNodes.dfy` | the queue of waiting lock requests, and `struct fuse` with its functions as methods |
| `NodeSlab.dfy` | the page-slab allocator under the nodes |
| `Interrupts.dfy`, `InterruptProgress.dfy`, `InterruptSession.dfy` | requests, INTERRUPTs and callbacks as steps of threads, how the threads get on, and the sections as methods |
| `InterruptDelivery.dfy`, `InterruptQueue.dfy` | that no interrupt and no call is lost over runs, and how long an INTERRUPT can be pending |
| `ShellGrammar.dfy`, `ShellParser.dfy`, `ShellSpelling.dfy`, `ShellRoundTrip.dfy` | the shell's tokenizer and parser: on values, as code, how tokens are spelled, and what the parser promises |
| `BufCopy.dfy` | copying between vectors of memory buffers |
| `OptionGroup.dfy` | building and taking apart `-o` option groups |

`dafny verify dfyconfig.toml` checks the whole project.

Code that changes state is modelled by methods of classes or methods over arrays, each proved
against functions on values; the theorems are lemmas about those functions and about
the state machines whose steps the methods are proved to perform. A section under a mutex is
one step. Ghost fields (`held`, `pins`, `issued`, `past`, ...) record what the code does
not store but its correctness is about: the outstanding locks, the temporary
references, the ids handed out, the history of a request.

What the environment is taken to promise:

- `remember` is off, which is the default, so that nodes without lookups are freed at once.
- Allocations succeed, except where a method has a parameter for them (`LocksInsert`, `Resize`, `AllocSlab`).
- The kernel asks only for nodes that it has looked up, takes back no more lookups than it was
  given, and keeps the nodes that a waiting lock request names looked up. This is `Promised`
  and `ReqOk` in `FuseNodes.dfy` and `QueueSpared` in `PathQueue.dfy`; names are C strings, and
  paths fit in an `unsigned int`.
- A request renames under its own two path locks, and gives the second one back after the
  first, in one section, as `free_path2` does (`OneRequest` and `FirstGone` in `TreeLocks.dfy`).
- A name that is unlinked or renamed is a node when its path lock is taken, or is none
  when the name is taken away. `TreeLocks.RemoveKeepsPathsIff` says exactly what happens otherwise.
- A request unlinks and renames when it has left the queue (`NotQueued` in `RemoveNode` and
  `RenameNode`).
- Fewer than INT_MAX path locks are held or waited for; `TreeLocks.WordAmbiguous` shows what
  the words would say with more.
- `char` is signed, so that the shell's parser takes bytes above 127 for the end of input.
- A file system answers a request once, and not while it is registering a callback for it;
  callbacks return.

Where code and comments differ, or the code has a corner of its own, the model follows the code:

- `fuse_buf_copy` leaves the cursor of the destination behind when the source ends, since `||`
  skips the second advance (`BufCopy.LagsIff`).
- `fuse_buf_size` adds on to an unlimited size, and wraps (`BufCopy.UnlimitedIff`).
- `add_opt_common` drops empty options in front of a group (`OptionGroup.RoundTripIff`).
- An option that is appended without escaping and ends in a backslash swallows the comma in
  front of the next one (`OptionGroup.AppendedIff`, `OptionGroup.HangingIff`).
- `mkPipe` lets a list of pipes that it reads after an error replace the list before it
  (`ShellGrammar.MkPipes`).

## Model

| member | source | states |
|---|---|---|
| PosixLocks.InodeLocks.LocksInsert | Assignment-4/fuse-2.9.3/lib/fuse.c:3735-3807 | for any canonical list and any valid range: the list stays canonical, and afterwards the lock type at every (owner, offset) is the new type inside the request of its owner and what it was elsewhere; it fails, and changes nothing, exactly if an allocation fails that is not spared by the unlock-everything case; the second spare lock is used once at most, and no end-of-range arithmetic leaves the range of offsets |
| PosixLocks.InodeLocks.CutEntry | Assignment-4/fuse-2.9.3/lib/fuse.c:3775-3796 | an entry of another type that the request meets is deleted, trimmed at either end, or split with the second spare lock, and what is asked is still pending |
| PosixLocks.InodeLocks.LocksConflict | Assignment-4/fuse-2.9.3/lib/fuse.c:3709-3720 | returns the first blocking entry of the list, and none exactly if the request could be granted, that is, if no other owner holds an incompatible type at any offset of it |
| PosixLocks.InodeLocks.constructor | Assignment-4/fuse-2.9.3/lib/fuse.c:423-444 | the empty list that a new node has is canonical |
| PosixLocks.TypeAtEntry | Assignment-4/fuse-2.9.3/lib/fuse.c:3735-3807 | in a canonical list, the type at an offset is that of the one entry that covers it, whichever entry is met first |
| PosixLocks.PlaceRequest | Assignment-4/fuse-2.9.3/lib/fuse.c:3798-3802 | putting a request between the entries before it and those after it (or leaving it out, for an unlock) is the pointwise update and keeps the list canonical |
| PosixLocks.RewriteEntry | Assignment-4/fuse-2.9.3/lib/fuse.c:3758-3796 | trimming, splitting, swallowing or merging with one met entry leaves a pending update with the same final outcome |
| PosixLocks.LeaveLoop | Assignment-4/fuse-2.9.3/lib/fuse.c:3758-3775 | stopping at the first entry beyond the request is right: nothing after it can matter |
| PosixLocks.CoveredRequest | Assignment-4/fuse-2.9.3/lib/fuse.c:3763-3764 | stopping at an entry of the same type that covers the request is right: the list already says what was asked |
| PosixLocks.ConflictScan | Assignment-4/fuse-2.9.3/lib/fuse.c:3709-3720 | scanning the entries decides whether a request conflicts with any lock at any offset |
| PosixLocks.GrantKeepsCompatible | Assignment-4/fuse-2.9.3/lib/fuse.c:3709-3807 | inserting a granted request, however it is widened by merging, keeps "no two owners hold conflicting locks at any offset" |
| PosixLocks.CanonicalUnique | Assignment-4/fuse-2.9.3/lib/fuse.c:3753-3802 | the canonical form is unique: two canonical lists that give an owner the same type at every offset have the same ranges for that owner |
| PosixLocks.FlockRoundTrip | Assignment-4/fuse-2.9.3/lib/fuse.c:3809-3826 | converting a valid lock to a `flock` and back gives the same range, the open-ended range included, without overflow |
| PosixLocks.FlockCovers | Assignment-4/fuse-2.9.3/lib/fuse.c:3809-3817 | a request that comes in covers exactly `len` bytes from `start`, or, with length 0, everything from there on |
| PosixLocks.ReportCovers | Assignment-4/fuse-2.9.3/lib/fuse.c:3819-3826 | and a lock that is reported covers exactly the bytes that the report says |
| LinearHash.HashName | Assignment-4/fuse-2.9.3/lib/fuse.c:660-675 | the loop computes the hash by 31s of parent and name, in 64-bit arithmetic |
| LinearHash.NameHashApart | Assignment-4/fuse-2.9.3/lib/fuse.c:660-668 | two names in one directory that differ in one character have different hashes before these are reduced to buckets, whatever stands before and behind it |
| LinearHash.ParentsApart | Assignment-4/fuse-2.9.3/lib/fuse.c:660-668 | and so has one name in two directories |
| LinearHash.IdHashApart | Assignment-4/fuse-2.9.3/lib/fuse.c:485-488 | the multiplication keeps ids of 32 bits apart: two of them have one hash only after it is reduced to a bucket |
| LinearHash.BucketInRange | Assignment-4/fuse-2.9.3/lib/fuse.c:485-494 | the bucket of any hash is one of the size/2 + split buckets in use |
| LinearHash.BucketSplit | Assignment-4/fuse-2.9.3/lib/fuse.c:485-494 | moving the split cursor by one changes the bucket of exactly those keys that the split moves to the upper half |
| LinearHash.BucketDouble | Assignment-4/fuse-2.9.3/lib/fuse.c:603-618 | doubling the size when the cursor has reached the half changes the bucket of no key |
| LinearHash.PlacedInsert | Assignment-4/fuse-2.9.3/lib/fuse.c:649-658 | a node hashed into the bucket of its key keeps every node exactly once in the bucket of its key |
| LinearHash.PlacedRemove | Assignment-4/fuse-2.9.3/lib/fuse.c:588-601 | so does unlinking one entry |
| LinearHash.PlacedSplit | Assignment-4/fuse-2.9.3/lib/fuse.c:620-647 | so does distributing the bucket at the cursor over itself and its upper partner |
| LinearHash.PlacedMerge | Assignment-4/fuse-2.9.3/lib/fuse.c:568-584 | so does appending the upper partner to the bucket below the cursor |
| LinearHash.PlacedDouble | Assignment-4/fuse-2.9.3/lib/fuse.c:603-618 | so does doubling the array |
| LinearHash.PlacedHalve | Assignment-4/fuse-2.9.3/lib/fuse.c:546-560 | so does halving it when the upper half is empty |
| LinearHash.NodeTable.constructor | Assignment-4/fuse-2.9.3/lib/fuse.c:4547-4559 | a new table is empty and valid: size NODE_TABLE_MIN_SIZE, nothing split |
| LinearHash.NodeTable.Lookup | Assignment-4/fuse-2.9.3/lib/fuse.c:496-506 | returns exactly what the abstract map holds for the key |
| LinearHash.NodeTable.Insert | Assignment-4/fuse-2.9.3/lib/fuse.c:649-658 | the abstract map gets exactly the new node; the load bound (use at most size/2 + split, split below size/2) is kept unless the array had to be enlarged and could not be |
| LinearHash.NodeTable.Rehash | Assignment-4/fuse-2.9.3/lib/fuse.c:620-647 | the map is unchanged; one more bucket is split, and the table doubles when the round is over; if it could not be doubled nothing more is split |
| LinearHash.NodeTable.Resize | Assignment-4/fuse-2.9.3/lib/fuse.c:603-618 | the size doubles, the cursor starts again, and the map is unchanged; if the allocation fails nothing changes |
| LinearHash.NodeTable.Remove | Assignment-4/fuse-2.9.3/lib/fuse.c:588-601 | the abstract map loses exactly the node, "unable to unhash node" is not reached, and the load bound is kept |
| LinearHash.NodeTable.Reduce | Assignment-4/fuse-2.9.3/lib/fuse.c:546-560 | the size is halved unless it is the smallest, and the map is unchanged |
| LinearHash.NodeTable.MergeOne | Assignment-4/fuse-2.9.3/lib/fuse.c:568-584 | one merge moves the cursor back by one and keeps the table sound |
| LinearHash.NodeTable.Remerge | Assignment-4/fuse-2.9.3/lib/fuse.c:562-586 | up to eight merges, with a halving, keep the map and always restore the load bound |
| NodeGraph.UnrefCollects | Assignment-4/fuse-2.9.3/lib/fuse.c:705-731 | the cascade of `unref_node`, `delete_node` and `unhash_name` ends, and all reference counts are exact again when it does |
| NodeGraph.AllSupported | Assignment-4/fuse-2.9.3/lib/fuse.c:802-808 | with exact counts, every node has a descendant (or is one) that the kernel or a pin holds |
| NodeGraph.UnrefFreesUnneeded | Assignment-4/fuse-2.9.3/lib/fuse.c:788-808 | after a cascade exactly the nodes are left that something still needs; every other one has been freed |
| NodeGraph.ForgetFreesUnneeded | Assignment-4/fuse-2.9.3/lib/fuse.c:1287-1323 | the same for `forget_node`, which takes back k lookups |
| NodeGraph.PinKeepsInv | Assignment-4/fuse-2.9.3/lib/fuse.c:2645-2653 | a temporary reference keeps the graph and the counts right |
| NodeGraph.UnpinFreesUnneeded | Assignment-4/fuse-2.9.3/lib/fuse.c:2678-2682 | dropping it frees exactly the nodes that are not needed any more |
| NodeGraph.IncLookupKeepsInv | Assignment-4/fuse-2.9.3/lib/fuse.c:835-840 | one lookup more, one reference more only for the first, and nothing else changes |
| NodeGraph.FindCreates | Assignment-4/fuse-2.9.3/lib/fuse.c:842-879 | a new node is entered with one lookup, and its parent gets one reference |
| NodeGraph.UnlinkKeepsInv | Assignment-4/fuse-2.9.3/lib/fuse.c:705-731 | a node loses its name, its parent one reference, and no node is freed while the parent is held |
| NodeGraph.LinkKeepsInv | Assignment-4/fuse-2.9.3/lib/fuse.c:762-786 | a nameless node gets a name; the parents stay acyclic if the new parent is not below it |
| NodeGraph.ClearKeepsInv | Assignment-4/fuse-2.9.3/lib/fuse.c:1334-1343 | `remove_node` takes exactly that name away |
| NodeGraph.RenameKeepsInv | Assignment-4/fuse-2.9.3/lib/fuse.c:1345-1379 | `rename_node` moves exactly that node to the new name, clears the node that had it, and keeps counts and acyclicity, if the target directory is outside the moved one |
| TreeLocks.WordDecodes | Assignment-4/fuse-2.9.3/lib/fuse.c:914-933 | with fewer than INT_MAX readers a word tells its readers from a writer, and a word with readers is none of the values that `unlock_path` asserts against |
| TreeLocks.WordAmbiguous | Assignment-4/fuse-2.9.3/lib/fuse.c:961-972 | with INT_MAX readers and a waiting writer it would not: the word is that of a writer |
| TreeLocks.OpenIff | Assignment-4/fuse-2.9.3/lib/fuse.c:914-994 | a word lets a reader pass exactly if the node is not write-locked and no writer is waiting for it, and it then is the number of its readers; it is zero exactly if the node has no holder at all |
| TreeLocks.FreeIff | Assignment-4/fuse-2.9.3/lib/fuse.c:961-994 | a path lock is granted exactly if every node on the way is so, and the node to write-lock has neither a reader nor a writer |
| TreeLocks.WaitCloses | Assignment-4/fuse-2.9.3/lib/fuse.c:965-969 | a refused writer closes a node that is in use to every further path, while its readers are still counted, and changes no other word |
| TreeLocks.LockKeepsInv | Assignment-4/fuse-2.9.3/lib/fuse.c:961-994 | a granted path lock adds exactly its own share to the words |
| TreeLocks.UnlockKeepsInv | Assignment-4/fuse-2.9.3/lib/fuse.c:914-933 | releasing it takes exactly that share out |
| TreeLocks.HomedRename | Assignment-4/fuse-2.9.3/lib/fuse.c:1345-1379 | a rename under the locks of one request keeps every write-locked node in the directory of its holder, or in that of the second lock of the same request |
| TreeLocks.UnlockAssertsHold | Assignment-4/fuse-2.9.3/lib/fuse.c:917-930 | none of the assertions of `unlock_path` can fail for an outstanding lock |
| TreeLocks.WaitKeepsInv | Assignment-4/fuse-2.9.3/lib/fuse.c:965-969 | announcing a waiting writer changes no account |
| TreeLocks.LockUnlock | Assignment-4/fuse-2.9.3/lib/fuse.c:1005-1007 | undoing a lock restores every word |
| TreeLocks.ForgetKeeps | Assignment-4/fuse-2.9.3/lib/fuse.c:1287-1323 | forgetting frees only nodes whose word is zero, and no outstanding lock loses a node |
| TreeLocks.VictimUnread | Assignment-4/fuse-2.9.3/lib/fuse.c:1334-1379 | the node whose name a request may take away is on nobody's path |
| TreeLocks.RenameKeeps | Assignment-4/fuse-2.9.3/lib/fuse.c:1345-1379 | a rename under both path locks keeps every outstanding path |
| TreeLocks.RenameStaysOutside | Assignment-4/fuse-2.9.3/lib/fuse.c:3020-3049 | such a rename cannot move a directory below itself |
| TreeLocks.RemoveKeepsPathsIff | Assignment-4/fuse-2.9.3/lib/fuse.c:1334-1343 | taking a name away without holding its node keeps all held paths exactly if the reader count of the node is zero |
| TreeLocks.StepKeepsInv | Assignment-4/fuse-2.9.3/lib/fuse.c:842-1379 | every operation, in every state in which it may happen, keeps graph, counts, words and held paths right |
| TreeLocks.RunKeepsInv | Assignment-4/fuse-2.9.3/lib/fuse.c:842-1379 | so every state of every run is right, whatever the interleaving |
| TreeLocks.HeldPathIsStable | Assignment-4/fuse-2.9.3/lib/fuse.c:914-1015 | from taking a path lock to releasing it, every node on the path lives and keeps its name and parent, so that what is unlocked is what was locked |
| TreeLocks.WordsCountPaths | Assignment-4/fuse-2.9.3/lib/fuse.c:914-1015 | in every state of every run, the reader count of a word is the number of held paths through the node, and it is WRITE exactly if one holder has write-locked it, and then no path passes it |
| DeadEnds.DeadAsParent | Assignment-4/fuse-2.9.3/lib/fuse.c:975-978 | the walk up from a node ends at a nameless one exactly if that from its parent does |
| DeadEnds.LockedIsNotDead | Assignment-4/fuse-2.9.3/lib/fuse.c:961-994 | a node with a name whose word is not zero has a path to the root: whoever holds it holds one |
| DeadEnds.DeadForGood | Assignment-4/fuse-2.9.3/lib/fuse.c:976-978 | ENOENT is final: in every state and for every operation, a node whose way up ends at a nameless node never gets a path again while it lives |
| DeadEnds.DeadForEver | Assignment-4/fuse-2.9.3/lib/fuse.c:976-978 | the same over whole runs, whatever the interleaving |
| DeadEnds.LookedUpStays | Assignment-4/fuse-2.9.3/lib/fuse.c:1287-1323 | a node with lookups is freed by nothing but a `forget` of all of them |
| LookupBalance.StepBalances | Assignment-4/fuse-2.9.3/lib/fuse.c:835-879 | every operation keeps the account of the lookups of every node: what was there and is told is what is left and is given up, whether it makes the node, frees it, or has nothing to do with it |
| LookupBalance.LookupsBalance | Assignment-4/fuse-2.9.3/lib/fuse.c:1287-1323 | the same over any part of any run, whatever the interleaving and the cascades |
| LookupBalance.RememberedIsSame | Assignment-4/fuse-2.9.3/lib/fuse.c:810-879 | while the kernel has not given up all the lookups of a number that it was told of, the number is that of the same node: it lives, and has the generation that it had |
| LookupBalance.NeverTooMany | Assignment-4/fuse-2.9.3/lib/fuse.c:1313-1322 | a node that was not there has no lookups exactly if as many have been given up as were told, which are never more |
| LockedNames.NameIsLocked | Assignment-4/fuse-2.9.3/lib/fuse.c:961-973 | the holder of a lock that was taken to unlink or rename may do that: the name is none, or that of the node it has write-locked, whose word is WRITE, on whose node nobody has a path, and which nobody else has write-locked |
| LockedNames.StaysNamed | Assignment-4/fuse-2.9.3/lib/fuse.c:1334-1379 | no operation of anybody else, unlink and rename under other locks included, takes that name away or gives it to another node |
| LockedNames.LockedNameIsStable | Assignment-4/fuse-2.9.3/lib/fuse.c:1334-1379 | so over every run, from taking the lock until its request uses it or gives it back |
| PathBuffer.GrowthEndsIff | Assignment-4/fuse-2.9.3/lib/fuse.c:890-895 | the doubling loop of `add_name` ends exactly if the length fits in an unsigned int |
| PathBuffer.NewSize | Assignment-4/fuse-2.9.3/lib/fuse.c:887-895 | the loop computes the first size of its series that is large enough |
| PathBuffer.PathBuffer.Enlarge | Assignment-4/fuse-2.9.3/lib/fuse.c:885-905 | moving the block keeps the string in it, and makes room for the name and the slash |
| PathBuffer.PathBuffer.Prepend | Assignment-4/fuse-2.9.3/lib/fuse.c:906-911 | the name and the slash are written in front, within the buffer |
| PathBuffer.PathBuffer.AddName | Assignment-4/fuse-2.9.3/lib/fuse.c:881-912 | the string gets exactly a slash and the name in front; nothing is written before the start of the buffer |
| PathBuffer.PathBuffer.Finish | Assignment-4/fuse-2.9.3/lib/fuse.c:996-999 | the string is moved to the start of the buffer, and an empty one becomes "/" |
| PathWalk.BuildPath | Assignment-4/fuse-2.9.3/lib/fuse.c:948-1001 | for any number and length of names the path is the names from the root down, joined by slashes, with the last name if there is one, or "/"; where no name holds a slash, cutting it at its slashes gives exactly those names |
| PathWalk.TextNames | Assignment-4/fuse-2.9.3/lib/fuse.c:996-999 | it begins with a slash, is "/" exactly for the root, and the components between its slashes are the names from the root down and the last name |
| PathWalk.PathLeadsBack | Assignment-4/fuse-2.9.3/lib/fuse.c:975-999 | looking up the names of the path one after the other from the root leads back to the node that the path was asked for, with the last name left over |
| FuseNodes.FreeIdWhileFew | Assignment-4/fuse-2.9.3/lib/fuse.c:810-819 | while fewer than 2^32 - 2 nodes are live, some id can be handed out |
| FuseNodes.NewerThanIssued | Assignment-4/fuse-2.9.3/lib/fuse.c:810-819 | a pair of generation and id whose 64-bit serial number is larger than all before has not been issued before, until the counter wraps |
| FuseNodes.Fuse.constructor | Assignment-4/fuse-2.9.3/lib/fuse.c:4688-4720 | a new file system has the root node with one lookup and nothing locked |
| FuseNodes.Fuse.NextId | Assignment-4/fuse-2.9.3/lib/fuse.c:810-819 | the loop ends; the id is not 0, not FUSE_UNKNOWN_INO and not in use, and its pair with the generation is new until the 64-bit counter wraps |
| FuseNodes.Fuse.Tick | Assignment-4/fuse-2.9.3/lib/fuse.c:812-815 | the next id of the counter, with a new generation whenever it wraps |
| FuseNodes.Fuse.UnrefNode | Assignment-4/fuse-2.9.3/lib/fuse.c:802-808 | performs exactly the cascade of the specification, and words of freed nodes go with them |
| FuseNodes.Fuse.DeleteNode | Assignment-4/fuse-2.9.3/lib/fuse.c:788-800 | its assertion on the treelock holds, and the node is unhashed and freed |
| FuseNodes.Fuse.UnhashName | Assignment-4/fuse-2.9.3/lib/fuse.c:705-731 | the node loses its name and the parent its reference; the entry is always found |
| FuseNodes.Fuse.HashName | Assignment-4/fuse-2.9.3/lib/fuse.c:762-786 | a node gets a name that is not in the table, and the parent a reference, as specified |
| FuseNodes.Fuse.IncLookup | Assignment-4/fuse-2.9.3/lib/fuse.c:835-840 | one lookup more, as specified |
| FuseNodes.Fuse.FindNode | Assignment-4/fuse-2.9.3/lib/fuse.c:842-879 | returns the node of that name, entering a new one with a fresh id if there is none, and counts one lookup; queued requests stay as they are |
| FuseNodes.Fuse.NewNode | Assignment-4/fuse-2.9.3/lib/fuse.c:852-869 | enters a node with a fresh id under a name that has none |
| FuseNodes.Fuse.Forget | Assignment-4/fuse-2.9.3/lib/fuse.c:1287-1323 | waits exactly if the last lookup of a locked node would go; otherwise performs the forget step |
| FuseNodes.Fuse.ForgetNode | Assignment-4/fuse-2.9.3/lib/fuse.c:1313-1322 | the section after the wait performs the forget step |
| FuseNodes.Fuse.PinNode | Assignment-4/fuse-2.9.3/lib/fuse.c:2645-2653 | the temporary reference of a lookup of "." |
| FuseNodes.Fuse.UnpinNode | Assignment-4/fuse-2.9.3/lib/fuse.c:2678-2682 | ... and its release, which may free the node |
| FuseNodes.Fuse.RemoveNode | Assignment-4/fuse-2.9.3/lib/fuse.c:1334-1343 | performs the remove step under the path lock; the queue stays as good as it is |
| FuseNodes.Fuse.RenameNode | Assignment-4/fuse-2.9.3/lib/fuse.c:1345-1379 | performs the rename step under both path locks, and the queue stays as good as it is; EBUSY exactly if a name that is only for hiding is taken |
| FuseNodes.Fuse.Relink | Assignment-4/fuse-2.9.3/lib/fuse.c:1359-1373 | the node at the new name goes, and the old one moves there, as specified |
| FuseNodes.Fuse.UnlockPath | Assignment-4/fuse-2.9.3/lib/fuse.c:914-933 | every node of the walk loses one reader, the waiting mark goes with the last one, the victim is freed, and no assertion fails |
| FuseNodes.Fuse.LockVictim | Assignment-4/fuse-2.9.3/lib/fuse.c:961-973 | the victim is write-locked if it is free; if it has readers they are told that a writer waits |
| FuseNodes.Fuse.WalkUp | Assignment-4/fuse-2.9.3/lib/fuse.c:975-994 | the walk read-locks every node up to the root, or stops at a nameless or closed one and undoes all it did |
| FuseNodes.Fuse.Undo | Assignment-4/fuse-2.9.3/lib/fuse.c:1005-1007 | a failed walk leaves every word as it was |
| FuseNodes.Fuse.Attempt | Assignment-4/fuse-2.9.3/lib/fuse.c:961-1007 | the victim and then the walk: all is locked, or every word is as before but for the waiting mark |
| FuseNodes.Fuse.TryGetPath | Assignment-4/fuse-2.9.3/lib/fuse.c:935-1015 | success locks exactly the path and the victim and returns the path; ENOENT changes nothing, and is the answer exactly at a dead end, whatever is locked; EAGAIN changes at most the waiting mark of the victim, and names what is in the way; a request that was granted a lock may use its name (what it write-locked is the node of that name, its word is WRITE and nobody has a path through it), and one that found its node in use has closed it to further readers |
| FuseNodes.OutcomeOfWalk | Assignment-4/fuse-2.9.3/lib/fuse.c:961-994 | an attempt that stops for a lock does not hide that there is no path: ENOENT exactly at a dead end |
| FuseNodes.Fuse.Unlock | Assignment-4/fuse-2.9.3/lib/fuse.c:914-933 | releases exactly one outstanding path lock |
| PathQueue.AtMostOnePartial | Assignment-4/fuse-2.9.3/lib/fuse.c:1069-1078 | in a queue as the code keeps it at most one request has exactly one of its two locks outstanding: the first, and it still waits |
| PathQueue.QueueStaysLive | Assignment-4/fuse-2.9.3/lib/fuse.c:1033-1087 | whatever operation comes between, a queued request that ended with ENOENT leads nowhere and holds nothing, as long as the nodes it names stay looked up |
| PathQueue.QueueStays | Assignment-4/fuse-2.9.3/lib/fuse.c:1033-1087 | and every name that a queued request has locked stays that of its node, whatever operation of others comes between |
| PathQueue.ElementDone | Assignment-4/fuse-2.9.3/lib/fuse.c:1033-1087 | writing an element back keeps the flags of all elements in step with the locks that are held |
| PathQueue.QueueRemove | Assignment-4/fuse-2.9.3/lib/fuse.c:1126-1133 | removing an element keeps the queue and the rule |
| FuseNodes.Fuse.QueueElementUnlock | Assignment-4/fuse-2.9.3/lib/fuse.c:1017-1031 | an element gives back what its flags say it holds |
| FuseNodes.Fuse.UnlockFirst | Assignment-4/fuse-2.9.3/lib/fuse.c:1021-1025 | ... its first lock |
| FuseNodes.Fuse.UnlockSecond | Assignment-4/fuse-2.9.3/lib/fuse.c:1026-1030 | ... and its second |
| FuseNodes.Fuse.TryElement | Assignment-4/fuse-2.9.3/lib/fuse.c:1046-1061 | one attempt: granted with its path, or refused, with exactly the node that it was to write-lock, if that is in use, closed to further readers; one that was granted may use its name |
| FuseNodes.Fuse.TryFirst | Assignment-4/fuse-2.9.3/lib/fuse.c:1046-1053 | the first path is tried if it is lacking, and the flag says whether it is held; what it got it may use |
| FuseNodes.Fuse.TrySecond | Assignment-4/fuse-2.9.3/lib/fuse.c:1054-1061 | the same for the second path, if there is one |
| FuseNodes.Fuse.TryMissing | Assignment-4/fuse-2.9.3/lib/fuse.c:1046-1061 | each path that is lacking is tried once; if the request is not complete then, one of them was refused, and every path that it lacks is refused in the words as they are then |
| FuseNodes.Fuse.WakeElement | Assignment-4/fuse-2.9.3/lib/fuse.c:1046-1087 | the request is complete, or must wait for a stated reason; only the first element keeps a part, and it does: it loses no lock, and what it still lacks is refused in the words as they are; it may use the names that it got; whoever is not first opens no lock that was closed before |
| FuseNodes.Fuse.QueueElementWakeup | Assignment-4/fuse-2.9.3/lib/fuse.c:1033-1087 | the same for the element in the queue, the first one of which keeps what it has and got; a waiting `forget` is signalled exactly if its node is unlocked; a complete element is left alone |
| FuseNodes.Fuse.ElementWakeup | Assignment-4/fuse-2.9.3/lib/fuse.c:1046-1087 | the same for one that asks for paths |
| FuseNodes.Fuse.WakeUpQueued | Assignment-4/fuse-2.9.3/lib/fuse.c:1089-1095 | after a pass the rule holds, locks of others are untouched, and nobody is overlooked: every request that still waits has a lock in its way in the state at the end of the pass (on a path that it lacks, or on its second path once its first were taken), the first in the queue holds every path that it could get; whoever got a lock may use the name; and every forget whose node is unlocked has been told |
| FuseNodes.MustWaitStill | Assignment-4/fuse-2.9.3/lib/fuse.c:1089-1095 | a request that had to wait must still wait after later elements have been tried |
| FuseNodes.FreeOrBarred | Assignment-4/fuse-2.9.3/lib/fuse.c:975-994 | a way that was free before other elements were tried is still free, or has a lock on it |
| FuseNodes.UndoTightens | Assignment-4/fuse-2.9.3/lib/fuse.c:1076-1078 | taking locks and giving them back again opens nothing that was closed |
| FuseNodes.Fuse.GetPath | Assignment-4/fuse-2.9.3/lib/fuse.c:1148-1169 | the path is locked and returned; or it does not exist, and nothing changes; or the request joins the queue holding nothing, and exactly the node that it was to write-lock, if that is in use, is closed to further readers; when it is granted it may use its name |
| FuseNodes.Fuse.TryGetPath2 | Assignment-4/fuse-2.9.3/lib/fuse.c:1203-1222 | both paths are locked and returned, and both names may be used, or neither is locked, and then no lock that was closed has been opened |
| FuseNodes.Fuse.GetPath2 | Assignment-4/fuse-2.9.3/lib/fuse.c:1224-1255 | the same, both names included, and on EAGAIN the request joins the queue holding nothing |
| FuseNodes.Fuse.QueuePath | Assignment-4/fuse-2.9.3/lib/fuse.c:1113-1124 | the request is the last of the queue |
| FuseNodes.Fuse.DequeuePath | Assignment-4/fuse-2.9.3/lib/fuse.c:1126-1146 | exactly that element leaves; a request that was served keeps all its locks, has their paths, and may use its names unless one was none and has been entered since, and one that ended with ENOENT holds nothing and asked for a path that leads nowhere |
| FuseNodes.Fuse.FreePath | Assignment-4/fuse-2.9.3/lib/fuse.c:1257-1272 | the lock is released, and nobody who could be served is overlooked: the queue is as after `WakeUpQueued` |
| FuseNodes.Fuse.FreePath2 | Assignment-4/fuse-2.9.3/lib/fuse.c:1274-1285 | the same for both locks of a request |
| NodeSlab.LiveApart | Assignment-4/fuse-2.9.3/lib/fuse.c:386-389 | nodes in use overlap neither each other nor the header of a page, and `node_to_slab` finds their page |
| NodeSlab.PageInUse | Assignment-4/fuse-2.9.3/lib/fuse.c:456-471 | every page that is mapped holds a node in use |
| NodeSlab.NothingLeft | Assignment-4/fuse-2.9.3/lib/fuse.c:4779-4790 | when no node is in use both slab lists are empty |
| NodeSlab.SlotTaken | Assignment-4/fuse-2.9.3/lib/fuse.c:430-440 | taking the first free slot adds exactly that node to those in use |
| NodeSlab.SlotFreed | Assignment-4/fuse-2.9.3/lib/fuse.c:461-468 | giving a slot back removes exactly that node |
| NodeSlab.PageFreed | Assignment-4/fuse-2.9.3/lib/fuse.c:469-471 | unmapping a page removes exactly its last node |
| NodeSlab.Allocator.AllocSlab | Assignment-4/fuse-2.9.3/lib/fuse.c:391-421 | the new page has all its slots on its free list and is the last partial one |
| NodeSlab.Allocator.AllocNode | Assignment-4/fuse-2.9.3/lib/fuse.c:423-444 | returns a slot that was not in use, and fails only if a page is needed and none can be mapped; used and free add up to the capacity of every page, and the two lists hold the pages with and without a free slot |
| NodeSlab.Allocator.FreeNodeMem | Assignment-4/fuse-2.9.3/lib/fuse.c:456-471 | exactly that node is not in use any more, and the page goes with its last node |
| NodeSlab.Allocator.FreeAll | Assignment-4/fuse-2.9.3/lib/fuse.c:4779-4790 | after all nodes are freed both assertions of `fuse_destroy` hold and nothing is mapped |
| Interrupts.StepKeepsInv | Assignment-4/fuse-2.9.3/lib/fuse_lowlevel.c:126-139 | every step of every thread keeps the counts, the mutexes and the callbacks right |
| Interrupts.RunKeepsInv | Assignment-4/fuse-2.9.3/lib/fuse_lowlevel.c:1566-1645 | so do all runs, whatever the interleaving |
| Interrupts.CountIsExact | Assignment-4/fuse-2.9.3/lib/fuse_lowlevel.c:126-139 | `ctr` is one for the live list plus one for each thread that has found the request; a request is destroyed once, and never while a list or a thread refers to it |
| Interrupts.NothingLeaks | Assignment-4/fuse-2.9.3/lib/fuse_lowlevel.c:126-139 | when all threads have returned only listed requests exist |
| Interrupts.CallbackFiresOnce | Assignment-4/fuse-2.9.3/lib/fuse_lowlevel.c:2220-2231 | a callback registered once, for a request interrupted once, is called at most once, and when both calls are over exactly if it was set and the interrupt was noted while the request was live, whichever came first |
| Interrupts.RegisteredIsSet | Assignment-4/fuse-2.9.3/lib/fuse_lowlevel.c:2220-2231 | for a live request the fields say whether a callback is set and an interrupt noted |
| Interrupts.PendingLeaves | Assignment-4/fuse-2.9.3/lib/fuse_lowlevel.c:1625-1645 | a pending INTERRUPT leaves its list only for the request that it names, or, being the oldest when none matches, to be answered EAGAIN |
| Interrupts.SomebodyCanMove | Assignment-4/fuse-2.9.3/lib/fuse_lowlevel.c:1578-1587 | as long as threads are at work on a request, in `find_interrupted` or in `fuse_req_interrupt_func`, waiting for its mutex or not, one of them can take its next step |
| InterruptProgress.WorkStep | Assignment-4/fuse-2.9.3/lib/fuse_lowlevel.c:1575-1594 | a step of a thread at work on a request leaves one step less for that request, an INTERRUPT that finds it adds five and a call of `fuse_req_interrupt_func` four, and no other step changes the number |
| InterruptProgress.ThreadsFinish | Assignment-4/fuse-2.9.3/lib/fuse_lowlevel.c:1575-1594 | so in every run the threads at work on a request are done after exactly the steps that were left, unless new ones come, whatever happens elsewhere |
| InterruptProgress.RunGoesOn | Assignment-4/fuse-2.9.3/lib/fuse_lowlevel.c:2220-2231 | and in every state of every run in which steps are left, one of them can be taken |
| Interrupts.TakeFires | Assignment-4/fuse-2.9.3/lib/fuse_lowlevel.c:1579-1586 | noting the interrupt and reading the callback in one section neither loses nor doubles a call: the request is interrupted and the thread has the callback that was set |
| Interrupts.RegStoreFires | Assignment-4/fuse-2.9.3/lib/fuse_lowlevel.c:2223-2229 | storing the callback before looking at `interrupted` neither loses nor doubles a call |
| Interrupts.FreeKeeps | Assignment-4/fuse-2.9.3/lib/fuse_lowlevel.c:126-139 | `fuse_free_req` leaves a request to the threads that have found it |
| Interrupts.FinishKeeps | Assignment-4/fuse-2.9.3/lib/fuse_lowlevel.c:1589-1594 | the last to let go destroys the request |
| InterruptDelivery.InterruptIsNoted | Assignment-4/fuse-2.9.3/lib/fuse_lowlevel.c:1566-1603 | in every run, whatever the interleaving: once an INTERRUPT has found a live request, or was pending for it when it came, the request is interrupted or a thread is on its way to note it, for as long as it is live |
| InterruptDelivery.InterruptArrives | Assignment-4/fuse-2.9.3/lib/fuse_lowlevel.c:1579-1584 | so it is interrupted as soon as no such thread is before that section |
| InterruptDelivery.CallbackIsSet | Assignment-4/fuse-2.9.3/lib/fuse_lowlevel.c:2220-2231 | in every run a callback that was registered once is set, or about to be set, for as long as the request is live |
| InterruptDelivery.CallbackDelivered | Assignment-4/fuse-2.9.3/lib/fuse_lowlevel.c:2220-2231 | for a live request with one registration and at most one INTERRUPT, when no thread is at work on it, the callback has been called exactly as often as there were INTERRUPTs, whichever came first |
| InterruptDelivery.NoneForgotten | Assignment-4/fuse-2.9.3/lib/fuse_lowlevel.c:1605-1645 | in every state of every run no INTERRUPT is pending for a live request, and no two are for the same |
| InterruptDelivery.InterruptOutcome | Assignment-4/fuse-2.9.3/lib/fuse_lowlevel.c:1605-1623 | an INTERRUPT finds a live request of its number if there is one, is dropped exactly if one for the same is pending, and is pending otherwise |
| InterruptQueue.ArrivalTakesOne | Assignment-4/fuse-2.9.3/lib/fuse_lowlevel.c:1625-1645 | a request that arrives takes one pending INTERRUPT off the list, if there are any: one that is for it, or, if there is none, the oldest, which is then to be answered EAGAIN |
| InterruptQueue.PendingEnds | Assignment-4/fuse-2.9.3/lib/fuse_lowlevel.c:1625-1645 | in every run, an INTERRUPT with `k` others in line before it is pending for at most `k` more arrivals that are not the request it is for: every one of those brings it forward, and nothing sets it back |
| InterruptSession.Session.ProcessRequest | Assignment-4/fuse-2.9.3/lib/fuse_lowlevel.c:2403-2411 | performs the arrival of a request: check, list, and the INTERRUPT to bounce |
| InterruptSession.Session.CheckInterrupt | Assignment-4/fuse-2.9.3/lib/fuse_lowlevel.c:1625-1645 | the request is interrupted exactly if an INTERRUPT for it is pending, which then goes; otherwise the oldest is to be bounced |
| InterruptSession.Session.DoInterrupt | Assignment-4/fuse-2.9.3/lib/fuse_lowlevel.c:1605-1623 | performs the arrival of an INTERRUPT: its request is found, or one for it is pending already, or it is pending from now on |
| InterruptSession.Session.NoteInterrupt | Assignment-4/fuse-2.9.3/lib/fuse_lowlevel.c:1579-1584 | performs the section that notes the interrupt: the request is interrupted, nothing else about requests changes, and the callback that was set is what is returned |
| InterruptSession.Session.LeaveRequest | Assignment-4/fuse-2.9.3/lib/fuse_lowlevel.c:1589-1594 | performs the section that lets go |
| InterruptSession.Session.StoreFunc | Assignment-4/fuse-2.9.3/lib/fuse_lowlevel.c:2223-2227 | performs the section that stores the callback |
| InterruptSession.Session.FreeReq | Assignment-4/fuse-2.9.3/lib/fuse_lowlevel.c:126-139 | performs the section that takes the request off its list |
| InterruptSession.Session.DestroyReq | Assignment-4/fuse-2.9.3/lib/fuse_lowlevel.c:120-124 | ... and the destruction by the last to let go |
| InterruptSession.Session.FindListed | Assignment-4/fuse-2.9.3/lib/fuse_lowlevel.c:1570-1571 | the search finds the first live request of that number |
| InterruptSession.Session.FindPending | Assignment-4/fuse-2.9.3/lib/fuse_lowlevel.c:1597-1601 | the search finds the first pending INTERRUPT for that number |
| InterruptSession.Session.Attach | Assignment-4/fuse-2.9.3/lib/fuse_lowlevel.c:1575-1576 | takes the reference of a thread |
| InterruptSession.Session.Unlist | Assignment-4/fuse-2.9.3/lib/fuse_lowlevel.c:103-109 | takes exactly the first entry of that request off the list |
| ShellRoundTrip.RoundTrip | Assignment-2/Parser/parse.c:207-280 | wherever in the input a line stands that spells a well-formed list of pipes, or none, `parse` returns that list and has read exactly that line; blanks, backslashes and quotes are free, a word may go over into a string, and a blank, a delimiter or the newline may end it; redirections stand anywhere behind the first word of their command, and there may be superfluous separators |
| ShellRoundTrip.OrdinaryLine | Assignment-2/Parser/parse.c:207-280 | an instance: two commands joined without any blanks |
| ShellRoundTrip.CanonicalRoundTrip | Assignment-2/Parser/parse.c:207-280 | every well-formed list of pipes with words of 1 to 63 characters has such a spelling, all characters behind backslashes |
| ShellRoundTrip.PipesOk | Assignment-2/Parser/parse.c:207-258 | whatever the input is, in every pipe that is returned the output of a command is the input of the next, and the arguments with their NULL fit in `maxargs`; the one exception is `End`, which can only be the last command of the last pipe, and only if the look-ahead is the end of the input |
| ShellRoundTrip.NoEndInLine | Assignment-2/Parser/parse.c:207-258 | so a line that was read up to its newline has real commands only |
| ShellSpelling.WordReadIff | Assignment-2/Parser/parse.c:425-488 | a word, however it is written, is read, and read back, exactly if it is no longer than BUF_SIZE |
| ShellSpelling.LexItem | Assignment-2/Parser/parse.c:370-489 | a spelled token is read as that token and nothing behind it is |
| ShellSpelling.ReadIsSpelled | Assignment-2/Parser/parse.c:370-489 | every token that is read without error, and without a NUL, is one that is spelled there |
| ShellSpelling.TokenReadIff | Assignment-2/Parser/parse.c:370-489 | so a token is read exactly where it is spelled |
| ShellRoundTrip.CmdRead | Assignment-2/Parser/parse.c:74-192 | a spelled command is read back, with its redirections in any places and its `&` |
| ShellRoundTrip.PipeRead | Assignment-2/Parser/parse.c:223-248 | the commands of a spelled pipe are joined as they were |
| ShellRoundTrip.SkipRead | Assignment-2/Parser/parse.c:78-79 | separators in front of a command are skipped |
| ShellRoundTrip.LineRead | Assignment-2/Parser/parse.c:250-257 | the pipes of a spelled line are listed as they were |
| ShellRoundTrip.CmdMadeIff | Assignment-2/Parser/parse.c:74-192 | a spelled command is made exactly if no kind of redirection is there twice, counting the pipe that it reads from, and otherwise there is none and the rest of the line is skipped |
| ShellRoundTrip.AmbiguousRefused | Assignment-2/Parser/parse.c:96-237 | a line whose first command has two redirections of one kind, or a redirected output and a joint behind it, gives no pipe, and is read up to its newline |
| ShellRoundTrip.NullRefused | Assignment-2/Parser/parse.c:216-249 | so does a line with a joint that no command follows |
| ShellParser.Parser.NextToken | Assignment-2/Parser/parse.c:370-489 | reads exactly the token of the grammar; the word buffer is never overrun |
| ShellParser.Parser.ReadString | Assignment-2/Parser/parse.c:425-448 | reads up to the closing quote, and gives up at the end of the line or of the buffer |
| ShellParser.Parser.ReadWord | Assignment-2/Parser/parse.c:450-488 | reads a word with backslashes and quotes in it |
| ShellParser.Parser.ReadOperator | Assignment-2/Parser/parse.c:387-420 | reads the longest operator, and puts back what does not belong to it |
| ShellParser.Parser.MkCmd | Assignment-2/Parser/parse.c:74-94 | returns what the grammar says, for any input |
| ShellParser.Parser.ReadCmd | Assignment-2/Parser/parse.c:96-192 | the same for the loop over words and redirections; the array of arguments is never overrun |
| ShellParser.StoreArg | Assignment-2/Parser/parse.c:158-170 | the argument is stored behind the others, in an array that is doubled when the NULL would not fit |
| ShellParser.Parser.MkPipe | Assignment-2/Parser/parse.c:207-258 | the same for pipes, including how a later list replaces an earlier one after an error |
| ShellParser.Parser.Parse | Assignment-2/Parser/parse.c:273-280 | the same for a line |
| BufCopy.CopiesAll | Assignment-4/fuse-2.9.3/lib/buffer.c:278-318 | the loop ends for any vectors, with empty buffers or not; it copies as many bytes as are left in the shorter one, and the cursor of the source advances by as many |
| BufCopy.CopyIsFlat | Assignment-4/fuse-2.9.3/lib/buffer.c:278-318 | for disjoint buffers it is one flat copy in order, however both vectors are cut up, and no other byte changes |
| BufCopy.LagsIff | Assignment-4/fuse-2.9.3/lib/buffer.c:309-311 | the cursor of the destination lags exactly if the source, with bytes in its last buffer, ends no later than the destination |
| BufCopy.DestinationLags | Assignment-4/fuse-2.9.3/lib/buffer.c:309-311 | an instance: all bytes are copied, and the cursor has not moved |
| BufCopy.UnlimitedIff | Assignment-4/fuse-2.9.3/lib/buffer.c:19-32 | a vector with an unlimited buffer is reported as unlimited exactly if the sizes behind the last one add up to a multiple of 2^64 |
| BufCopy.UnlimitedLost | Assignment-4/fuse-2.9.3/lib/buffer.c:19-32 | an instance: with one byte behind it the vector is reported as empty |
| BufCopy.SizeOfLimited | Assignment-4/fuse-2.9.3/lib/buffer.c:19-32 | without unlimited buffers the size is the sum modulo 2^64 |
| BufCopy.BufVec.Size | Assignment-4/fuse-2.9.3/lib/buffer.c:19-32 | the loop computes that size |
| BufCopy.BufVec.Advance | Assignment-4/fuse-2.9.3/lib/buffer.c:262-276 | the cursor moves, both assertions hold, and the result says whether the vector goes on |
| BufCopy.CopyOne | Assignment-4/fuse-2.9.3/lib/buffer.c:224-239 | the bytes are moved as they were, also when the ranges overlap, and `memcpy` is used only when they do not |
| BufCopy.BufferCopy | Assignment-4/fuse-2.9.3/lib/buffer.c:278-318 | the loop, in place, performs exactly that copy |
| OptionGroup.RoundTripIff | Assignment-4/fuse-2.9.3/lib/fuse_opt.c:117-139 | the options of a group built by escaped appends are the list exactly if its first option is not empty or it has one only |
| OptionGroup.LeadingLost | Assignment-4/fuse-2.9.3/lib/fuse_opt.c:117-139 | an instance: of an empty option and one behind it only the second is read back |
| OptionGroup.BuiltIsRead | Assignment-4/fuse-2.9.3/lib/fuse_opt.c:294-332 | in general they are the list without the empty options in front |
| OptionGroup.EscapedIsRead | Assignment-4/fuse-2.9.3/lib/fuse_opt.c:312-325 | an escaped option is collected as it was, and octal digits in it are never decoded |
| OptionGroup.UnescapedIff | Assignment-4/fuse-2.9.3/lib/fuse_opt.c:141-144 | an option appended without escaping is read back exactly if it has no comma, and no backslash but at its end |
| OptionGroup.UnescapedComma | Assignment-4/fuse-2.9.3/lib/fuse_opt.c:141-144 | an instance: `a,b` is read as two options |
| OptionGroup.AppendedIff | Assignment-4/fuse-2.9.3/lib/fuse_opt.c:117-139 | for any group and any option, escaped, or plain and not: reading the appended group gives the options of the group and then this one, exactly if the group does not end in a backslash that nothing escapes; of an empty group, this one alone |
| OptionGroup.UnescapedAppendedIff | Assignment-4/fuse-2.9.3/lib/fuse_opt.c:141-144 | without escaping that holds exactly if the option has no comma, and no backslash but at its end |
| OptionGroup.HangingIff | Assignment-4/fuse-2.9.3/lib/fuse_opt.c:123-136 | such a backslash is left exactly by an unescaped option that ends in one |
| OptionGroup.WrittenIsRead | Assignment-4/fuse-2.9.3/lib/fuse_opt.c:312-328 | an option whose characters are bare, behind backslashes, or coded by three octal digits, in any mixture, is collected as it is: the digits give the byte with that value |
| OptionGroup.AllHanded | Assignment-4/fuse-2.9.3/lib/fuse_opt.c:294-332 | when every option is accepted all are handed over |
| OptionGroup.HandedUpTo | Assignment-4/fuse-2.9.3/lib/fuse_opt.c:294-332 | otherwise the options up to the first that is refused are, and no other |
| OptionGroup.AddOptCommon | Assignment-4/fuse-2.9.3/lib/fuse_opt.c:117-139 | the reallocated size always suffices, and the string is the old group, a comma if it was not empty, and the option |
| OptionGroup.CopyOption | Assignment-4/fuse-2.9.3/lib/fuse_opt.c:131-136 | the loop writes two characters at most for each of the option |
| OptionGroup.NextChar | Assignment-4/fuse-2.9.3/lib/fuse_opt.c:312-328 | one character is decoded, and looking ahead stays within the string |
| OptionGroup.CutOption | Assignment-4/fuse-2.9.3/lib/fuse_opt.c:306-307 | the option is what was collected, up to the first NUL in it |
| OptionGroup.ProcessRealOptionGroup | Assignment-4/fuse-2.9.3/lib/fuse_opt.c:294-332 | the write position never passes the read position, and the options are handed over in order up to the first that is refused |

## Left out

- FuseNodes.Fuse.WakeUpQueued: does not claim that a request for two paths is served in the end; the source has a FIXME about deadlocks there.
- FuseNodes.Fuse.FindNode: works on the two tables as maps; that the hash tables behave as maps is proved in `LinearHash.dfy`, and the chains through the node objects themselves are not modelled.
- FuseNodes.Fuse.RenameNode: `is_hidden` is not modelled.
- FuseNodes.Fuse.PinNode: a lookup of ".." is not modelled; the parent that it names is looked up in a section of its own.
- PosixLocks.InodeLocks.LocksInsert: the process id that a merged range keeps is not modelled.
- PosixLocks.InodeLocks.LocksConflict: only the lock list is modelled, not the call of the file system's own lock operation.
- LinearHash.NodeTable.Reduce: a failing reallocation, after which the code keeps the larger array, is not modelled.
- NodeSlab.Allocator.AllocSlab: free lists are sequences of addresses; their links inside the free slots, and the contents of memory, are not modelled.
- InterruptSession.Session.FreeReq: the doubly linked lists are sequences, so that taking a request off its list is modelled and the links are not.
- Interrupts.CallbackFiresOnce: calls of the callback are counted; what the callback does, and the signals that libfuse's own callback sends, are not modelled.
- ShellRoundTrip.RoundTrip: is stated for lines that spell a list of pipes; lines with a separator next to a joint, which the parser reads over, are not covered, and after a bad token the parser drops pipes that it has read and goes on in the middle of the line, which `ShellGrammar.dfy` models without a theorem.
- ShellParser.Parser.ReadCmd: a command is a value that is completed when the loop ends, not a structure that is filled in; memory that is freed or leaked after errors is not modelled.
- BufCopy.BufferCopy: buffers that are file descriptors, and splicing, are not modelled.
- OptionGroup.ProcessRealOptionGroup: what `process_gopt` does with an option is a parameter; templates and their matching are not modelled.
- PathBuffer.PathBuffer.Enlarge: a failing `realloc` is not modelled.
- The LRU list and `remember` mode, `fuse_clean_cache` and the clocks.
- `fuse_fs_*` wrappers, compatibility shims, module loading, opcode decoding, stat conversion: they hand their arguments on.
- Channels, mounting, sessions, signals, thread creation; condition variables appear as flags and steps.
- The executor of the shell, the player and master programs, the FUSE examples, and the older copies of the same files.
- The student thread library, whose queue operations do not keep their own invariants.
