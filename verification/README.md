# Verified models of sv6 data structures and protocols

This project models seven pieces of the sv6 research kernel and its user programs whose
correctness rests on invariants over whole structures or whole runs, and proves what those
pieces promise. `dafny verify dfyconfig.toml` checks the whole project.

## What is modelled

**The RCU tree (`attic/bonsai.c`).** `BonsaiTree` is the weight-balanced tree as a function on
trees. `BonsaiHeap` is the writer as the exact list of stores it makes to memory cells, with
its delayed frees; `BonsaiWriter` is the writer as imperative code that makes those stores in
place; `BonsaiStores` says which stores can change what a search finds, and `BonsaiReach` which cells
can be reached after each; `BonsaiReaders` lets a lock-free `tree_find` take its steps between any two
stores of any run of inserts and removes; `BonsaiFrees` follows the freed cells.

**The directory hash table (`include/chainhash.hh`).** `ChainMemory` is the chains as readers see
them, where an erased item keeps its next pointer. `ChainProtocol` runs any number of threads
over any number of tables; the unlocked checks, every item of a lock-free walk, every lock
acquisition, the checks under the locks, every store and every release are separate steps
(`Advance`, `NextBy`). `DirSpec` is the same operations as atomic steps on a map. `ChainInvariant`,
`ChainSteps`, `ChainStores` and `ChainRuns` prove the invariant; `ChainTheorems` states what callers
get, and `ChainExample` is a run in which two lookups together are not atomic. `ChainTable` is the code
under the locks as imperative methods on tables that may be the same object.

**The mail spool (`bin/mail-enqueue.cc`, `bin/mail-qman.cc`, `bin/mail-deliver.cc`).** `MailSpool`
has every system call by which any number of enqueuers, queue-manager threads and delivery processes
can affect each other as a step, over a file system in which an inode number can be used again as
soon as its last name is gone. `open` with `O_EXCL`, `rename` and `unlink` behave as POSIX.1-2017
System Interfaces say. `MailInvariant`, `MailFrame` and `MailSteps` prove the invariant,
`MailTheorems` and `MailProgress` the results; `MailExample` has two runs. `MailFraming`,
`MailBatch` and `MailNames` treat the byte stream of batch mode and the printed inode numbers.

**The write queue (`include/disk.hh`, `kernel/disk.cc`).** `DiskMachine` is any number of disks that
carry out the blocks of the requests under way in any order, while the issuer now and then waits for
a request. `DiskStripes` is the striping, `DiskBatches` the gathering of writes into requests.
`DiskQueue` is one queue, as commands to the disks and as imperative code; `QueueProgram` has its
commands from one flush to the next in closed form. `BlockSystem` and `BlockQueue` are the block queue
with one queue per disk, all of which send to the same disks; `StripedWrites` says when the outcome is
that of one-at-a-time writes.

**The inode block map (`attic/fs.cc`).** `BlockMap` and `BlockMapRuns` run any number of `bmap`
calls with every load, allocation, compare-and-swap, free and disk store as a step; `Truncate` is
`itrunc` as imperative code; `InodeRounds` lets the two alternate.

**The dependency queue (`attic/wqsh.cc`)** is `DepQueue`, where items finish on other cores at any
moment. **The pattern matcher (`attic/grep.c`)** is `Grep`.

## Findings

- *Readers can see a rename or kill half-done.* `replace_from` makes two or three stores and
  `remove_and_kill` two, and lookups take no lock. After the first store of a rename, memory holds both
  names or neither (`HalfDoneRename`). Neither, if there was no destination: one thread can look for the
  source and then for the destination and find neither, and no single moment for the rename explains
  both results (`ChainExample.NeitherName`, a run from the initial state). Both, if a destination is
  overwritten: presence-only lookups see that, but the write section opened at
  `include/chainhash.hh:203` lasts until the return, so a lookup that reads the destination's value
  waits; for such readers a rename over an existing destination without a subdirectory takes effect at
  its erase (`OverwriteAtErase`). The subdirectory's entry is stored last and lags behind. After the
  first store of a kill a reader still finds the entry in the dead table (`HalfDoneKill`). Any one lookup
  by itself is explained, by the mutator's first store or by its last (`OneLookupExplained`). With the
  effect fixed at the first store, a value read is the directory's at some moment of the call exactly if
  memory is not out of date on that name since before the call (`SeenIffNotStale`); that is so if nothing
  owes the name a store when the lookup is called (`LookupAtRest`). Mutators that have taken their locks
  are atomic without exception.
- *`replace_from` and its comment differ.* The comment says `subdir[ksubdir]` is set; the code
  overwrites it only if it is there (`include/chainhash.hh:147`, `208-215`, `230-237`). Renaming an
  entry onto itself removes it. `RenameAsDocumented` says exactly when code and comment agree.
- *Striping is applied twice.* `block_queue::write` maps a block to its disk and place
  (`include/disk.hh:171-172`), and `disk_writev` ignores the queue's disk and maps the place of the
  request's first block once more (`kernel/disk.cc:175-176`). With more than one disk, block b + 16 is
  written over block b of the first stripe (`SecondStripeLands`; with two disks, flushing blocks 0 and
  16 always leaves block 16's data at block 0, `CollisionExample`). `RightIff` gives the exact condition
  on the blocks written for the disks to hold what one-at-a-time writes leave, whatever the data and the
  order of completion: one disk, or only blocks of the first disk in requests that start in its first
  stripe; and no block written again while an earlier write of it may be under way.
- *Blocks written twice.* Rewriting a block before a flush can lose the later write. Whether an earlier
  request may still be under way depends on the slots: requests 32 apart are not, and a flush waits for
  the slots below the one it is filling before it issues what is left there. So writing a block twice
  and flushing is safe from slot 0, but not from slot 31, nor if another block is written before the
  flush (`RaceExample`). For well-placed writes `RightIffNoRace` is the exact condition
  for given data.
- *Long inode numbers.* Names and notifications are printed into 16-byte buffers. They stay distinct
  exactly while no inode number has more than 15 digits (`NamesFaithfulIff`); `MailSpool` uses the
  numbers themselves.
- *Mail after EXIT.* EXIT2 messages go behind whatever has been notified by then, so mail notified
  after EXIT may still be delivered (`MailExample.LateMailDelivered`), and the queue manager's steps are
  bounded only from the moment the last EXIT2 is sent (`ExitEnds`); before, by the work there is and the
  work that arrives (`StepsBounded`).
- *Index blocks.* `itrunc` frees an index block only if all of it lies beyond the new end, so not every
  emptied one is freed: a file with block 15 only, cut to 12 blocks, keeps an indirect block without
  entries (`KeptEmptyExample`). `IndexBlockFreedIff` gives the exact condition. A file no longer than
  the new size is left alone.
- *`bonsai` frees before it unlinks.* `rcu_free_node` is called before the store that makes the node
  unreachable, so a reader can reach a node after it was freed (`FreedStillVisited`). At every moment of
  an operation the nodes within reach are exactly those the last link store left in the tree
  (`ReachableExactly`): a node of the tree stays within reach after its free exactly until the next
  child pointer or root is stored, and one that the operation itself allocated is within reach when it
  is freed exactly if a link was stored since (`FreedReachableIff`). From that store on no reader that
  starts later visits it (`ReaderNeverTouchesGone`).

## Model

| member | source | states |
|---|---|---|
| `BonsaiTree.LongSideHasInner` | attic/bonsai.c:178-191 | where `tree_balance` rotates, the child and, for a double rotation, the inner grandchild exist, so no null is dereferenced |
| `BonsaiTree.BalanceSizes` | attic/bonsai.c:106-196 | `tree_balance` returns a tree with exact size fields and one node more than its parts, and its recursion ends |
| `BonsaiTree.BalanceKeepsInOrder` | attic/bonsai.c:106-196 | rebalancing, with its nested rotations, leaves the in-order sequence of pairs as it was |
| `BonsaiTree.BalanceKeepsContents` | attic/bonsai.c:169-196 | rebalancing keeps search order, pairs and keys |
| `BonsaiTree.InsertContents` | attic/bonsai.c:198-212 | insert adds the pair if its key is new, changes nothing else, and keeps search order |
| `BonsaiTree.DelMinContents` | attic/bonsai.c:214-234 | `tree_delmin` removes exactly the least pair and keeps search order |
| `BonsaiTree.DelPrimeContents` | attic/bonsai.c:236-250 | joining two ordered halves through the right half's minimum keeps all pairs and the order |
| `BonsaiTree.RemoveContents` | attic/bonsai.c:252-267 | remove takes out exactly the pair with the key and keeps search order |
| `BonsaiTree.SingleRotationSizes` | attic/bonsai.c:106-112 | the arithmetic of a single rotation: within the repairable range both new nodes satisfy the weight bound |
| `BonsaiTree.DoubleRotationSizes` | attic/bonsai.c:114-125 | the arithmetic of a double rotation: the rebuilt half is again repairable and the new root satisfies the weight bound |
| `BonsaiTree.BalanceRestoresBound` | attic/bonsai.c:169-196 | with balanced children, the larger no more than max(5a+1, 4a+4) for the smaller a, `tree_balance` returns a balanced tree |
| `BonsaiTree.InsertBalanced` | attic/bonsai.c:198-212 | insert keeps the weight bound at every node |
| `BonsaiTree.DelMinBalanced` | attic/bonsai.c:221-234 | `tree_delmin` keeps the weight bound at every node |
| `BonsaiTree.RemoveBalanced` | attic/bonsai.c:252-267 | remove keeps the weight bound at every node |
| `BonsaiTree.HeightBound` | attic/bonsai.c:310-315 | a balanced tree of height h satisfies 5^(h-1) <= size * 4^(h-1) |
| `BonsaiTree.FindAgreesWithMap` | attic/bonsai.c:77-86 | `tree_find` is lookup in the finite map the tree holds |
| `BonsaiTree.FindGtAgreesWithMap` | attic/bonsai.c:88-102 | `tree_find_gt` returns the pair with the least greater key, or nothing if there is none |
| `BonsaiTree.InsertIsMapInsert` | attic/bonsai.c:198-212 | insert is insert-if-absent on the finite map |
| `BonsaiTree.RemoveIsMapRemove` | attic/bonsai.c:252-267 | remove is delete on the finite map |
| `BonsaiTree.RunsStayBalanced` | attic/bonsai.c:293-325 | every tree reached from empty by inserts and removes is ordered, exactly sized and balanced, and holds the map the operations describe |
| `BonsaiHeap.BalanceRefines` | attic/bonsai.c:169-196 | addresses aside, the writer's rebalancing with in-place stores computes the functional one |
| `BonsaiHeap.TreeInsert` | attic/bonsai.c:198-212 | the tree left by the insert's stores is the functional insert |
| `BonsaiHeap.TreeMin` | attic/bonsai.c:214-219 | the node found holds the least pair |
| `BonsaiHeap.TreeDelmin` | attic/bonsai.c:221-234 | the tree left by the stores is the functional one without its minimum |
| `BonsaiHeap.TreeDelprime` | attic/bonsai.c:236-250 | the tree left by the stores is the functional join |
| `BonsaiHeap.TreeRemove` | attic/bonsai.c:252-267 | the tree left by the remove's stores is the functional remove |
| `BonsaiHeap.BalanceAccounts` | attic/bonsai.c:106-196 | for every address: uses before plus allocations equal uses after plus frees, through nested rotations |
| `BonsaiHeap.InsertAccounts` | attic/bonsai.c:198-212 | the same conservation of addresses for an insert |
| `BonsaiHeap.DelprimeAccounts` | attic/bonsai.c:236-250 | the same, on the path that replaces a node by the minimum of its right side |
| `BonsaiHeap.RemoveAccounts` | attic/bonsai.c:252-267 | the same conservation of addresses for a remove |
| `BonsaiHeap.SwingEvolves` | attic/bonsai.c:148-166 | one child store that swaps in a subtree with the same keys, up to the one being inserted or removed, disturbs no search that is under way |
| `BonsaiHeap.BalanceSound` | attic/bonsai.c:169-196 | every store of `tree_balance`, in place or not, disturbs no search, and the result is represented in memory |
| `BonsaiHeap.InsertSound` | attic/bonsai.c:198-212 | every store of an insert disturbs no search except for the inserted key |
| `BonsaiHeap.DelminSound` | attic/bonsai.c:221-234 | rebuilding the branch without its minimum touches nothing a reader can see |
| `BonsaiHeap.DelprimeSound` | attic/bonsai.c:236-250 | the same for the join |
| `BonsaiHeap.RemoveSound` | attic/bonsai.c:252-267 | every store of a remove disturbs no search except for the removed key |
| `BonsaiHeap.InsertConfined` | attic/bonsai.c:198-212 | an insert fills only fresh cells, stores only into nodes of the tree and nodes it has allocated, frees only such nodes, and stores only pointers to such nodes |
| `BonsaiHeap.RemoveConfined` | attic/bonsai.c:252-267 | so does a remove |
| `BonsaiStores.BalanceLinks` | attic/bonsai.c:169-196 | `tree_balance` stores a link only if it keeps the node in place; rotations and rebuilding store none |
| `BonsaiStores.DelprimeLinks` | attic/bonsai.c:236-250 | joining the halves of a removed node stores no link |
| `BonsaiStores.InsertSettles` | attic/bonsai.c:198-212 | after each link an insert stores, a search for its key from the root succeeds |
| `BonsaiStores.RemoveSettles` | attic/bonsai.c:252-267 | after each link a remove stores, a search for its key from the root fails; so the first one unlinks it |
| `BonsaiReaders.StartReady` | attic/bonsai.c:290 | the empty tree is a valid start |
| `BonsaiReaders.FinishReady` | attic/bonsai.c:198-267 | between operations the memory holds a valid tree, every cell is in it once or was freed once |
| `BonsaiReaders.FreesExactlyTheUnreachable` | attic/bonsai.c:106-166 | each operation frees exactly the cells it makes unreachable, each once, and none that the new root reaches |
| `BonsaiReaders.EveryStorePublishesBeforeOrAfter` | attic/bonsai.c:148-267 | after every single store the keys a reader can find are the operation's before-set or its after-set |
| `BonsaiReaders.ReaderNeverMisses` | attic/bonsai.c:77-86 | a `tree_find` that runs across any stores of any run never misses a key that can be found from the root at every moment of its call, removes of it in progress included |
| `BonsaiReaders.ReaderNeverInvents` | attic/bonsai.c:77-86 | and never finds a key that can be found from the root at no moment of its call, inserts of it in progress included |
| `BonsaiReaders.ReaderRightAtSomeMoment` | attic/bonsai.c:77-86 | so the result of every `tree_find`, found or missed, is right at some moment of its call, whatever inserts and removes of its key it overlaps |
| `BonsaiReaders.ReaderNeverTouchesFreed` | attic/bonsai.c:48-52 | a reader that starts after an operation returned, at any later moment of the run, never dereferences a cell freed by it or before |
| `BonsaiReach.InsertPublished` | attic/bonsai.c:198-212 | after every store of an insert the memory below the root is a tree whose cells changed only by what was allocated and freed up to the last link store |
| `BonsaiReach.RemovePublished` | attic/bonsai.c:252-267 | the same for a remove |
| `BonsaiFrees.ReachableExactly` | attic/bonsai.c:106-267 | at every moment of an operation the cells reachable from the root are exactly those in the tree before or allocated, and not freed, as of the last child or root store |
| `BonsaiFrees.FreedReachableIff` | attic/bonsai.c:106-166 | a freed cell is reachable at a later moment of the operation if and only if it was when freed and no child or root store lies between; when freed, a cell of the tree is, and one the operation allocated is if and only if a link was stored since |
| `BonsaiFrees.ReaderNeverTouchesGone` | attic/bonsai.c:48-52 | a reader that starts at any moment of an operation never dereferences a cell freed before the last link store, by this operation or earlier, whatever follows |
| `BonsaiFrees.FreedStillVisited` | attic/bonsai.c:106-166 | an insert during which a reader that starts after two frees visits both freed cells, which are out of reach one store later with two stores still to come |
| `BonsaiWriter.Bonsai.AllocNode` | attic/bonsai.c:29-40 | one fresh cell with the right size, nothing else changed |
| `BonsaiWriter.Bonsai.TreeSingleLeft` | attic/bonsai.c:106-112 | makes exactly the stores of the modelled single rotation and returns its root |
| `BonsaiWriter.Bonsai.TreeSingleRight` | attic/bonsai.c:127-133 | likewise, mirrored |
| `BonsaiWriter.Bonsai.TreeDoubleLeft` | attic/bonsai.c:114-125 | makes exactly the stores of the modelled double rotation, with its nested rebalancing |
| `BonsaiWriter.Bonsai.TreeDoubleRight` | attic/bonsai.c:135-146 | likewise, mirrored |
| `BonsaiWriter.Bonsai.TreeNode` | attic/bonsai.c:148-166 | stores in place or builds a copy and frees the original, as the flags say |
| `BonsaiWriter.Bonsai.TreeBalance` | attic/bonsai.c:169-196 | makes exactly the stores of the modelled `tree_balance` |
| `BonsaiWriter.Bonsai.TreeInsert` | attic/bonsai.c:198-212 | makes exactly the stores of the modelled insert |
| `BonsaiWriter.Bonsai.TreeMin` | attic/bonsai.c:214-219 | returns the address of the least node |
| `BonsaiWriter.Bonsai.TreeDelmin` | attic/bonsai.c:221-234 | makes exactly the stores of the modelled `tree_delmin` |
| `BonsaiWriter.Bonsai.TreeDelprime` | attic/bonsai.c:236-250 | makes exactly the stores of the modelled join |
| `BonsaiWriter.Bonsai.TreeRemove` | attic/bonsai.c:252-267 | makes exactly the stores of the modelled remove |
| `BonsaiWriter.Bonsai.Insert` | attic/bonsai.c:366 | an insert whose result becomes the root takes the writer to the next modelled state |
| `BonsaiWriter.Bonsai.Remove` | attic/bonsai.c:371 | so does a remove |
| `ChainMemory.PushOk` | include/chainhash.hh:94 | `push_front` of a new key keeps the chains well formed: newest first, no key twice, nothing lost |
| `ChainMemory.EraseOk` | include/chainhash.hh:95 | one `erase_after` keeps them well formed, including for readers on the erased item |
| `ChainMemory.PushGet` | include/chainhash.hh:94 | `push_front` gives its name the value and no other name another |
| `ChainMemory.EraseGet` | include/chainhash.hh:95-96 | `erase_after` removes the item's name and no other |
| `ChainMemory.SetValGet` | include/chainhash.hh:203-204 | overwriting an item's value changes its name's value and no other |
| `DirSpec.DeadStaysEmpty` | include/chainhash.hh:67-68 | once a table is dead and empty, no allowed operation revives it or puts a name in it |
| `DirSpec.RenameEffect` | include/chainhash.hh:132-150 | name by name: a rename removes the source, sets the destination, sets an existing subdirectory entry, leaves all else |
| `DirSpec.RenameAsDocumented` | include/chainhash.hh:132-150 | the code's effect is the commented one if and only if the three names are distinct (up to equal values) and the subdirectory entry exists |
| `ChainSteps.LockOrderOk` | include/chainhash.hh:151-171 | every mutator locks the bucket of each name it touches, in rising address order, none twice |
| `ChainSteps.SortOk` | include/chainhash.hh:162-167 | sorting the bucket list gives the same buckets in strictly rising order |
| `ChainSteps.FromHead` | include/chainhash.hh:283-284 | a walk starting at the head has the live entry ahead of it, or the key was absent at that moment |
| `ChainSteps.NextOnChain` | include/chainhash.hh:284-286 | the successor of an item that was live during the call was itself live during the call, even if both are erased by now |
| `ChainSteps.StepOver` | include/chainhash.hh:285-286 | stepping over an item with another key never loses the entry |
| `ChainSteps.RanOff` | include/chainhash.hh:291 | a walk that reaches the end has a moment of the call at which the key was absent |
| `ChainSteps.HeldValue` | include/chainhash.hh:287-289 | the value read, even from an erased item, was the key's value at a moment of the call |
| `ChainSteps.EnumItem` | include/chainhash.hh:251-256 | one item of enumerate's loop keeps the best key beyond the cursor and skips only keys absent at some moment |
| `ChainSteps.MoveOk` | include/chainhash.hh:280-292 | every lock-free step establishes what the next point of the code relies on |
| `ChainSteps.ThreadTick` | include/chainhash.hh:60-126 | no step of another thread spoils what a thread knows |
| `ChainStores.StoreOk` | include/chainhash.hh:199-237 | each single store keeps the chains well formed, stays inside the held buckets and changes one name |
| `ChainStores.PlanOk` | include/chainhash.hh:199-240 | once the checks have passed, each store of the plan is valid when its turn comes |
| `ChainStores.PlanIsEffect` | include/chainhash.hh:199-240 | the stores of an operation together have exactly its atomic effect on every name |
| `ChainStores.FrontIsTheEntry` | include/chainhash.hh:312-317 | `remove_and_kill`'s assertion: the front of the key's bucket is the one entry left, with the given value |
| `ChainRuns.AllowedIff` | include/chainhash.hh:173-224 | the checks made on memory under the locks are the checks of the atomic operation on the directory |
| `ChainRuns.AgreesLater` | include/chainhash.hh:199-242 | between the stores of an operation, memory equals the directory except on the names still to be stored |
| `ChainRuns.StepKeepsInv` | include/chainhash.hh:60-325 | every step of every thread keeps the invariant |
| `ChainRuns.RunKeepsInv` | include/chainhash.hh:60-325 | the invariant holds in every state of every run |
| `ChainTheorems.MemoryIsDirectory` | include/chainhash.hh:60-325 | in every reachable state memory gives each name its directory value unless a half-done rename or kill owes it a store; dead flags agree |
| `ChainTheorems.LookupExplained` | include/chainhash.hh:280-292 | every lookup result is memory's value at a moment of the call, and the directory's at a moment of the call unless the name was out of date since before |
| `ChainTheorems.LookupAtRest` | include/chainhash.hh:280-292 | a lookup called when no half-done rename or kill owes its name a store returns the directory's value at a moment of the call |
| `ChainTheorems.OneLookupExplained` | include/chainhash.hh:280-292 | every lookup by itself returns the directory's value at a moment of the call, if a half-done rename or kill may take effect at its first store or at its last |
| `ChainTheorems.SeenIffNotStale` | include/chainhash.hh:280-292 | with mutators taking effect at their first store: exactly when a value read is the directory's at some moment of the call |
| `ChainTheorems.MutatorExplained` | include/chainhash.hh:60-325 | every insert, remove, rename and kill is one atomic directory step between call and return, or an early refusal that the directory explains |
| `ChainTheorems.RefusalExplained` | include/chainhash.hh:61-62 | a refusal before locking agrees with the directory at some moment of the call unless a name was out of date |
| `ChainTheorems.DirectoryStep` | include/chainhash.hh:60-325 | the directory changes only by allowed operations, each inside its call, each once |
| `ChainTheorems.HalfDoneRename` | include/chainhash.hh:203-206 | after the first store of a rename memory holds both names or neither; it is the state before exactly if the destination already held the value, and never the state after |
| `ChainTheorems.OverwriteAtErase` | include/chainhash.hh:199-206 | a rename over an existing destination without a subdirectory: until its erase every name but the destination has its old value, and the erase completes it |
| `ChainTheorems.HalfDoneKill` | include/chainhash.hh:312-317 | after the first store of a kill the table is dead and a reader still finds its last entry |
| `ChainTheorems.HalfDoneExample` | include/chainhash.hh:226-228 | a concrete rename after whose first store both names are gone |
| `ChainExample.NeitherName` | include/chainhash.hh:226-228 | a run from the initial state in which one thread completes a lookup of the source and then of the destination inside one rename, both in vain; no single moment for the rename explains both |
| `ChainTheorems.DeadForever` | include/chainhash.hh:312-313 | a killed table stays killed |
| `ChainTheorems.DeadIsEmpty` | include/chainhash.hh:294-325 | in every later state it holds no name, and nothing on its chains but the entry its killer is about to unlink |
| `ChainTheorems.NoDeadlock` | include/chainhash.hh:157-171 | in every reachable state with an unfinished call, some unfinished call can take a step |
| `ChainTheorems.KillFindsEntry` | include/chainhash.hh:315-316 | when the checks of `remove_and_kill` pass, the entry it pops is there |
| `ChainTheorems.StepsEnd` | include/chainhash.hh:280-292 | every step of a call brings it nearer its end whatever other threads do, so lookups and enumerations never retry |
| `ChainTheorems.EnumerateExplained` | include/chainhash.hh:244-263 | enumerate's key was present during the call and lies beyond the cursor; every key it skipped was absent at some moment |
| `ChainTheorems.ReaddirIncreases` | include/chainhash.hh:244-263 | successive results strictly increase in (bucket, key), so no key is returned twice |
| `ChainTheorems.ReaddirComplete` | include/chainhash.hh:244-263 | a key present from the first call to the last return is returned |
| `ChainTable.Search` | include/chainhash.hh:70-72 | the search loop finds the key's item, or that the chain has none |
| `ChainTable.Table.Lookup` | include/chainhash.hh:280-292 | the value of the key in the table's map |
| `ChainTable.Table.Insert` | include/chainhash.hh:60-78 | succeeds exactly if the atomic insert is allowed, with exactly its effect on all tables |
| `ChainTable.Table.Remove` | include/chainhash.hh:80-126 | both overloads: succeeds exactly if the atomic remove is allowed, with exactly its effect |
| `ChainTable.Table.MoveEntry` | include/chainhash.hh:199-228 | the stores on source and destination, in either order, whatever tables, buckets or items coincide |
| `ChainTable.Table.SetSubdir` | include/chainhash.hh:208-215 | sets the subdirectory's entry if it is there |
| `ChainTable.Table.ReplaceFrom` | include/chainhash.hh:128-242 | all or nothing: succeeds exactly if the atomic rename is allowed, with exactly its effect on all tables, for every aliasing of tables and buckets |
| `ChainTable.Table.HoldsOnly` | include/chainhash.hh:298-301 | the loops of `remove_and_kill` decide whether the table holds nothing but the given entry |
| `ChainTable.Table.RemoveAndKill` | include/chainhash.hh:294-325 | kills and empties the table exactly if it is alive and holds nothing else |
| `ChainTable.Table.Enumerate` | include/chainhash.hh:244-263 | the least key beyond the cursor in (bucket, key) order, or none |
| `MailFraming.LengthRoundTrip` | bin/mail-qman.cc:238-243 | the eight bytes of a message length decode to it |
| `MailBatch.Stream.XRead` | libutil/libutil.cc:51-64 | reads the bytes asked for, in order, or all there are |
| `MailBatch.CopyFdN` | libutil/shutil.cc:61-84 | copies exactly the first bytes up to the limit or the end of the stream, through short reads |
| `MailBatch.BatchMode` | bin/mail-deliver.cc:70-86 | one message per frame in order, one result code per message, and failure exactly on a cut-off length |
| `MailBatch.FramingRoundTrip` | bin/mail-qman.cc:237-249 | any list of messages, framed, is parsed back exactly |
| `MailNames.NamesFaithfulIff` | bin/mail-enqueue.cc:100-101 | numbers below n printed into the 16-byte buffer stay distinct if and only if none has more than 15 digits |
| `MailSteps.MessIsFree` | bin/mail-enqueue.cc:82-87 | the rename into mess/ never meets an existing file |
| `MailSteps.TmpIsFree` | bin/mail-deliver.cc:32-42 | the exclusive create of the temporary file never collides, across messages, processes and reuse of process ids |
| `MailSteps.NewIsFree` | bin/mail-deliver.cc:52-57 | the rename into new/ never meets an existing file |
| `MailSteps.FreeHasNoTodo` | bin/mail-enqueue.cc:61-67 | a newly allocated inode number has no envelope left in todo/ |
| `MailSteps.HeaderIsLength` | bin/mail-deliver.cc:74-80 | what a pooled process reads as a length is the length of the message in hand |
| `MailSteps.ChildEndsCopy` | bin/mail-deliver.cc:43-44 | a delivery process stops copying only when it has the whole message |
| `MailSteps.EnqKeepsInv` | bin/mail-enqueue.cc:40-105 | every system call of an enqueuer keeps the invariant |
| `MailSteps.WrkKeepsInv` | bin/mail-qman.cc:66-285 | every step of a queue-manager thread keeps the invariant, pooled or not |
| `MailSteps.ChildKeepsInv` | bin/mail-deliver.cc:30-86 | every step of a delivery process keeps the invariant |
| `MailSteps.StepKeepsInv` | bin/mail-qman.cc:66-285 | every step of every process keeps the invariant |
| `MailTheorems.RunKeepsInv` | bin/mail-qman.cc:266-285 | the invariant holds in every state of every run |
| `MailTheorems.NobodyDies` | bin/mail-enqueue.cc:46-67 | no exclusive create ever fails, todo/ included, and no file that is opened is ever missing |
| `MailTheorems.RenamesOverwriteNothing` | bin/mail-enqueue.cc:82-87 | no rename into mess/ or new/ replaces a message |
| `MailTheorems.DeliveriesAreRight` | bin/mail-deliver.cc:30-67 | every delivery is to the envelope's recipient, none is made twice, and every mailbox file is a delivered message byte for byte |
| `MailTheorems.DeliveryMoment` | bin/mail-deliver.cc:52-57 | the rename that delivers creates a new file with exactly the message's bytes |
| `MailTheorems.NotifiedIsSomewhere` | bin/mail-enqueue.cc:98-104 | every notified message is in the socket and undelivered, in one thread's hands, or delivered |
| `MailTheorems.StepKeepsExit` | bin/mail-qman.cc:116-141 | control messages in the queue, those still to be sent and threads that took one always add up to the number of threads |
| `MailTheorems.TakenOnce` | bin/mail-qman.cc:116-141 | at every moment a thread has taken one control message if it is on its way out or gone, and none otherwise |
| `MailTheorems.AfterExit` | bin/mail-qman.cc:266-285 | when all threads are gone each has taken exactly one control message, none is left over, and everything notified before EXIT has been delivered |
| `MailProgress.StepsEnd` | bin/mail-qman.cc:266-285 | every step of a thread or delivery process uses up a finite amount of work |
| `MailProgress.DeliveryProgress` | bin/mail-qman.cc:266-285 | while a notified message is waiting or in hand, some thread or its delivery process can go on |
| `MailProgress.ExitProgress` | bin/mail-qman.cc:266-285 | after EXIT, while a thread is left, some thread or its delivery process can go on |
| `MailProgress.StepsBounded` | bin/mail-qman.cc:266-285 | in any stretch of a run the steps of threads and delivery processes are no more than the work there is and the work that arrives |
| `MailProgress.ExitBounded` | bin/mail-qman.cc:116-141 | once all control messages are sent, they are no more than the work in front of the last of them, whatever enqueuers do |
| `MailProgress.ExitEnds` | bin/mail-qman.cc:266-285 | that bound; and when after EXIT no thread or delivery process can go on, all nthread threads have terminated, each having taken exactly one control message, none is left, and all mail notified before EXIT is delivered |
| `MailExample.LateMailDelivered` | bin/mail-qman.cc:116-141 | a run from the initial state in which mail submitted after EXIT is delivered |
| `MailExample.ShortestExit` | bin/mail-qman.cc:266-285 | a run from the initial state to the end: one thread, EXIT and nothing else |
| `DiskMachine.LandOk` | include/disk.hh:232-243 | whenever a block reaches a disk, the disk holds for it a value that may have been written last |
| `DiskMachine.DoOk` | include/disk.hh:232-254 | issuing a request, or waiting until one is complete, keeps that |
| `DiskMachine.SettledIsSequential` | include/disk.hh:258-262 | without clashes, any completion order leaves what the requests leave one after the other |
| `DiskMachine.WinnerWins` | include/disk.hh:232-243 | every value that may win does win in some completion order |
| `DiskMachine.SequentialIffNoClash` | include/disk.hh:204-262 | all completion orders give the sequential result if and only if no request that may be under way together with the last one for a place disagrees with it |
| `DiskStripes.PlacesDiffer` | kernel/disk.cc:130-139 | different blocks have different (disk, place) pairs |
| `DiskStripes.QueuedHomeIff` | kernel/disk.cc:169-182 | a queued block arrives where `disk_read` looks for it if and only if there is one disk, or it belongs on the first disk and its request starts in the first stripe |
| `DiskStripes.TwoDisksExample` | kernel/disk.cc:169-182 | with two disks, a request for block 32 goes to the wrong disk |
| `DiskStripes.SecondStripeLands` | kernel/disk.cc:169-182 | with more than one disk, each block of the second stripe lands on the home of the block 16 before it |
| `DiskBatches.GatherAt` | include/disk.hh:204-226 | write i is at its place (Off) of its request (BatchOf): requests are cut exactly at a gap and after 16 blocks |
| `DiskBatches.GatherFrom` | include/disk.hh:204-226 | and nothing else is in a request |
| `DiskBatches.SameRequest` | include/disk.hh:204-226 | no request holds a block twice |
| `DiskQueue.TakeGathers` | include/disk.hh:204-226 | the commands of a queue close requests exactly as `Gather` does |
| `DiskQueue.FlushLeads` | include/disk.hh:258-262 | a flush issues what is left, waits for every request in a slot, and leaves all slots empty |
| `DiskQueue.Disks.WaitFor` | include/disk.hh:27-31 | returns when the request is complete, whatever else reaches the disks meanwhile |
| `DiskQueue.Disks.Writev` | kernel/disk.cc:169-182 | issues the request where its first block is mapped |
| `DiskQueue.Queue.constructor` | include/disk.hh:190-196 | starts with every slot empty and nothing under way |
| `DiskQueue.Queue.FlushQueue` | include/disk.hh:228-256 | issues exactly the slot's run, after the slot's previous request is complete; a synchronous call leaves nothing under way in the slot |
| `DiskQueue.Queue.AddToQueue` | include/disk.hh:204-226 | makes exactly the modelled commands; only the current slot is non-empty, below 64KB |
| `DiskQueue.Queue.Flush` | include/disk.hh:258-262 | makes exactly the modelled commands and leaves every slot empty |
| `QueueProgram.TakeIs` | include/disk.hh:204-226 | closed form of everything a queue does between flushes: from the second round of slots on, each request waits for the one 32 before it |
| `QueueProgram.WholeAt` | include/disk.hh:204-262 | the requests `Gather` gives, each at its position among the commands, the flush included |
| `QueueProgram.WholeFrom` | include/disk.hh:204-262 | and no others |
| `QueueProgram.WaitedIff` | include/disk.hh:228-262 | a request is issued after waiting for an earlier one if and only if that is 32 or more before it, or the flush issues it and the earlier one's slot comes first |
| `BlockSystem.AfterOk` | include/disk.hh:166-175 | each queue gathers its share of the writes; every request is in a slot or was waited for |
| `BlockSystem.ProgramIssue` | include/disk.hh:177-181 | after a flush every request has been waited for and belongs to some queue's share |
| `BlockSystem.ProgramHas` | include/disk.hh:177-181 | and every request of every share has been issued |
| `StripedWrites.TwoWrites` | include/disk.hh:204-262 | two writes of one block are in different requests, and the later waits for the earlier exactly if they are not together |
| `StripedWrites.SequentialIsOneAtATime` | include/disk.hh:204-226 | for well-placed writes, the requests one after the other leave what the writes leave one at a time |
| `StripedWrites.ClashIffRace` | include/disk.hh:204-262 | requests clash exactly where writes race |
| `StripedWrites.RightIffNoRace` | include/disk.hh:166-262 | for well-placed writes (any, with one disk), every completion order leaves what one-at-a-time `disk_write`s leave if and only if no two different values race for a block |
| `StripedWrites.LandsAt` | kernel/disk.cc:169-182 | through whatever queue, a write is issued for the place `disk_writev` computes from its request |
| `StripedWrites.LandedFrom` | kernel/disk.cc:169-182 | and whatever is issued for a place is a write placed there |
| `StripedWrites.MustBeWellPlaced` | kernel/disk.cc:169-182 | for different data on empty disks the outcome is right only if all writes are well placed |
| `StripedWrites.RightIff` | include/disk.hh:166-262 | for all data, old contents and completion orders the disks hold what one-at-a-time writes leave if and only if the blocks are well placed (one disk, or first disk and first stripe) and none is rewritten while under way |
| `StripedWrites.DistinctRight` | include/disk.hh:166-262 | one disk, no block written twice: always right |
| `StripedWrites.RaceExample` | include/disk.hh:228-262 | one disk: three writes of which the first two race, and two writes that race or not depending on the slot |
| `StripedWrites.CollisionExample` | kernel/disk.cc:169-182 | two disks: flushing blocks 0 and 16 always leaves block 16's data at the home of block 0, and the home of block 16 as it was |
| `BlockQueue.Blocks.constructor` | include/disk.hh:154-158 | one empty queue per disk |
| `BlockQueue.Blocks.WriteBlock` | include/disk.hh:166-175 | the write goes to its disk's queue at its place there, after all earlier ones |
| `BlockQueue.Blocks.Flush` | include/disk.hh:177-181 | everything taken is on the shared disks in some completion order of the modelled commands; for well-placed writes that do not race, exactly as one-at-a-time writes leave it |
| `BlockMap.SlotsDiffer` | attic/fs.cc:153-274 | no block sits in two slots of the three-level map |
| `BlockMap.OtherThread` | attic/fs.cc:153-274 | no step of one call spoils what another knows |
| `BlockMap.PutOk` | attic/fs.cc:165-263 | installing a block fills its own slot and leaves every other slot as it was |
| `BlockMap.PublishOk` | attic/fs.cc:187-195 | publishing the copied indirect block changes no mapping |
| `BlockMap.WriteOk` | attic/fs.cc:207-210 | storing a cached entry in the indirect block changes no mapping |
| `BlockMap.StepKeepsInv` | attic/fs.cc:153-274 | every step of every call keeps the invariant |
| `BlockMapRuns.RunKeepsInv` | attic/fs.cc:153-274 | the invariant holds in every state of every run |
| `BlockMapRuns.BlocksAccounted` | attic/fs.cc:153-274 | the inode's allocated blocks are exactly those in its slots and those held by calls in flight, each in one place |
| `BlockMapRuns.CacheAgrees` | attic/fs.cc:198-213 | the cached entries are those of the on-disk indirect block except where the winner's store is pending |
| `BlockMapRuns.ValueForever` | attic/fs.cc:153-274 | a filled slot never changes |
| `BlockMapRuns.SameAnswer` | attic/fs.cc:153-274 | all calls for one block number, whenever they return, return the same block |
| `BlockMapRuns.OwnStepEnds` | attic/fs.cc:162-271 | each step leaves a call fewer to do, so no call retries more than a fixed number of times |
| `BlockMapRuns.AtMost18` | attic/fs.cc:162-271 | a call never has more than 18 steps left |
| `BlockMapRuns.OthersDoNotDelay` | attic/fs.cc:162-271 | no step of another call leaves a call more to do |
| `BlockMapRuns.CallReturns` | attic/fs.cc:162-271 | over runs: between call and return a call makes at most 18 steps of its own, and while it has not returned it has made fewer and can make another |
| `Truncate.WithinIs` | attic/fs.cc:292-293 | the start index of a level is the cut minus the blocks before that level, or 0 |
| `Truncate.FirstOfHome` | attic/fs.cc:143-149 | a file block's own slot serves exactly that block |
| `Truncate.LeftByBmap` | attic/fs.cc:153-274 | every inode that concurrent `bmap` calls leave behind meets what truncation relies on |
| `Truncate.ClearSlot` | attic/fs.cc:284-289 | emptying one slot and freeing its block keeps the account of freed blocks exact |
| `Truncate.WriteBackOk` | attic/fs.cc:295-298 | writing the cached entries back changes no mapping |
| `Truncate.Inode.ClearDirect` | attic/fs.cc:284-289 | empties the direct slots beyond the cut |
| `Truncate.Inode.ClearIndirect` | attic/fs.cc:291-319 | empties the indirect entries beyond the cut, and frees the indirect block if all of it is beyond, with or without the cache |
| `Truncate.Inode.ClearLeaves` | attic/fs.cc:332-345 | empties one second-level block from an index on, and touches nothing else |
| `Truncate.Inode.ClearDbl` | attic/fs.cc:328-351 | one turn of the outer loop |
| `Truncate.Inode.ClearDouble` | attic/fs.cc:321-360 | empties the doubly-indirect entries beyond the cut and frees index blocks wholly beyond it |
| `Truncate.Inode.Itrunc` | attic/fs.cc:276-363 | keeps every mapping below ceil(offset/BSIZE), removes every later one, frees exactly the removed blocks and index blocks, each once |
| `Truncate.IndexBlockFreedIff` | attic/fs.cc:291-360 | an index block is freed if and only if it starts at or beyond the cut; it is kept without entries if and only if it starts before the cut and none of its entries before the cut was in use |
| `Truncate.KeptEmptyExample` | attic/fs.cc:291-319 | a tree whose indirect block is kept without entries |
| `InodeRounds.TruncatedIsInit` | attic/fs.cc:276-363 | with the freed blocks given up, a truncated inode is one that `bmap` calls can start from |
| `InodeRounds.RoundsKeepInit` | attic/fs.cc:153-363 | after any alternation of concurrent `bmap` calls and truncations every owned block is in one slot and every block in a slot is owned |
| `DepQueue.ProviderIsLast` | attic/wqsh.cc:93-103 | the provider is the most recent earlier item with the name |
| `DepQueue.FirstUnfinishedIsReady` | attic/wqsh.cc:83-115 | the first unfinished item can always run |
| `DepQueue.PushKeepsOrder` | attic/wqsh.cc:66-71 | an item pushed while others run changes nobody's providers |
| `DepQueue.Dwq.Push` | attic/wqsh.cc:66-71 | appends the item, also while others are under way |
| `DepQueue.Dwq.AllDone` | attic/wqsh.cc:73-81 | true exactly if all items are done |
| `DepQueue.Dwq.CanRun` | attic/wqsh.cc:83-115 | with items finishing meanwhile: yes only if the most recent provider of every need is done by then, and yes if all were done at the call |
| `DepQueue.Dwq.StartItem` | attic/wqsh.cc:126-127 | an item starts once, after the providers of all its needs have finished |
| `DepQueue.Dwq.FinishItem` | attic/wqsh.cc:134-141 | an item finishes after it started |
| `DepQueue.Dwq.SomethingToDo` | attic/wqsh.cc:119-132 | while any item is unfinished, some item is under way or can run |
| `DepQueue.Dwq.Run` | attic/wqsh.cc:119-132 | the run ends with every item done, each started once and in order, provided started items finish |
| `Grep.HereOne` | attic/grep.c:92-94 | a single-character piece: exactly one fitting character and then the rest |
| `Grep.HereMany` | attic/grep.c:98-105 | a starred piece: any number of fitting characters and then the rest |
| `Grep.MatchHere` | attic/grep.c:84-95 | true exactly if some prefix, all of the text for a final $, is in the pattern's language |
| `Grep.MatchStar` | attic/grep.c:98-105 | true exactly if the rest matches after some run of fitting characters |
| `Grep.Match` | attic/grep.c:71-81 | true exactly if some substring, a prefix after ^ and a suffix before $, is in the pattern's language; ends on all inputs |

## Left out

- Memory ordering and the seqlock: a value is read in one step, at any time, and stores reach all
  threads in order. In the code a value reader also waits for a write section to end.
- ChainTheorems.HalfDoneRename: speaks of memory; readers of an overwritten destination's value wait for
  the write section, and for them `OverwriteAtErase` holds.
- Reclamation by gc epochs: erased items and freed nodes are never overwritten while a reader may
  hold them; what is proved is which ones are unreachable, and from when on.
- Rename with coinciding names under concurrency: `ChainProtocol` requires source, destination and
  subdirectory entry to be three names, as the callers ensure; `ChainTable` and `DirSpec` treat all
  coincidences.
- `remove_and_kill` of a table without its entry: as in the callers, a kill names an entry (`..`) that
  only a kill removes.
- The callback form of `enumerate`, which walks all chains once: `lookup`'s walk covers it.
- Failure paths of system calls other than the exclusive creates and opens (no space, `fork` failing),
  crashes and `fsync`, the unordered socket of `-a all`, and CPU affinity.
- ChainTheorems.LookupExplained: full atomicity of lookups is false while a rename is half-done
  (`ChainExample.NeitherName`); the exact condition, for the effect at the first store, is
  `SeenIffNotStale`.
- Several block queues at once: one block queue has the disks to itself between its flushes.
- Data given to the disk queue is taken as it is at issue; reads through the queue do not exist.
- `bmap` without a transaction, and blocks of other inodes, whose allocation only has to stay disjoint.
- Concurrent truncation: `itrunc` runs alone on its inode, as its callers ensure.
- DepQueue.Dwq.TryWork: that some started item finishes is assumed of the work queue, not proved.
- `attic/fs.cc` inode cache and directory flushing, `attic/scalefs.cc`, the shells, drivers, benchmarks
  and network programs of the repository.
