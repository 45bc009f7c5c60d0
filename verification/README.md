# Verified models of the server's core

Dafny models of the parts of this server that hold state and are hard to get right, with proofs of
what they promise. `dafny verify dfyconfig.toml` checks all of it.

| files | what they model |
|---|---|
| `ArenaSizes.dfy`, `Arena.dfy`, `ArenaProtocol.dfy`, `ArenaAlone.dfy`, `ArenaCleanups.dfy` | the protobuf arena: one arena in memory with its block list, cleanup list and thread caches; any number of arenas and threads as interleaved steps, with their cleanup lists and what Reset reports; and the steps of an undisturbed thread against the method in memory |
| `DescriptorTables.dfy`, `BuildStates.dfy`, `LoadPlans.dfy`, `FileBuilding.dfy`, `PublicDependencies.dfy`, `SymbolLookup.dfy` | the descriptor pool: nested checkpoints over three maps, file building that calls back into a fallback database, when the loading of a group of files succeeds, public imports, scoped name lookup |
| `SymbolNames.dfy`, `DescriptorIndex.dfy`, `MergedDatabase.dfy` | the symbol prefix index of the descriptor database and the merging of databases |
| `CircleBuffer.dfy`, `RingProtocol.dfy`, `ScatteredWrites.dfy`, `IBusLayout.dfy`, `ChannelSegments.dfy`, `SegmentProtocol.dfy` | the shared-memory message ring, its writer and reader byte by byte, with scattered writes, the layout of the channels in the segment, the rings as bytes of that segment, and the writers and readers of all its channels at once |
| `TileGrid.dfy`, `TileTags.dfy`, `SearchTree.dfy`, `SearchBounds.dfy`, `StraightSearch.dfy`, `StraightWalk.dfy`, `PathFinder.dfy` | the path finder: A*, the straight approach, and the path that is read back from the tags and smoothed |
| `JobPool.dfy` | the HTTP job pool: five workers and the main thread |
| `Options.dfy` | a value that may be missing |

Each class follows the fields and the loops of the C++ class. Its methods are proved against functions
on values (a ring, the state of the tables, an index), and the promises are proved about those
functions. Threads are steps of a state machine under sequential consistency; a theorem about runs
speaks about every sequence of enabled steps.

## What the proofs found

- A channel of at most 16 bytes gets a region smaller than its ring's header: clearing it sets the
  length of the next channel's ring to 0 (`ChannelSegments.TinyRingReachesNext`). With more than 16
  bytes in every channel no operation on one reaches another (`ChannelSegments.ChannelsAreIsolated`),
  however the byte steps on all of them are interleaved (`SegmentProtocol.ChannelsNeverDisturbEachOther`);
  `ChannelSegments.RingFitsIff` is the exact condition.
- The configuration admits channels up to the total size without rounding them, and the layout aligns
  them, so a configuration that uses its budget exactly can lose its last channel
  (`IBusLayout.ExactBudgetLosesChannel`; exact condition in `IBusLayout.AllKeptIff`).
- `AddSymbol` compares a name that sorts before every key with the wrong neighbour. Adding "foo" to
  an index that holds "foo.bar" breaks the invariant the header proves its lookup with
  (`DescriptorIndexes.AddSymbolCounterexample`). `DescriptorIndexes.AddSymbolIsExact` says exactly when.
- A file of the fallback database that imports itself is accepted: it is in the tables before its own
  imports are looked up there (`FileBuilding.DescriptorPool.SelfImportIsBuilt`). Imports are otherwise
  free of circles (`BuildStates.NoImportCycles`).
- Files that import each other without circles are loaded with all their imports, whatever the order of
  the imports, when they can be built and ask for symbols of nothing but imports
  (`FileBuilding.DescriptorPool.FindFileByName`, `LoadPlans.ImportsAreLoaded`). Without the last it is
  not so: a lookup can make the pool try a file whose import is still under way, and that file is then
  refused for the rest of the call, though it could be built
  (`FileBuilding.DescriptorPool.LookupSpoilsLoading`).
- Looking a symbol up in the fallback database while a file is linked never changes what the file
  finds, as long as only imported files count (`BuildStates.LoadingFindsNothingNew`): a comment in the
  source says that it is needed only for better error messages, and that is so.
- Two files that define the same extension number are both built, and the earlier one keeps the number:
  only a number used twice in one file is an error (`FileBuilding.DescriptorPool.Register`,
  `FileBuilding.DescriptorPool.BuildFileImpl`).
- `Read` never returns -3 while there is one writer and one reader (`RingProtocol.EveryScheduleIsSafe`).
- A worker that waits for a job does not hear `WakeStop` (`JobPool.HangingWorkerMissesStop`); every
  other worker does (`JobPool.StopIsHeardIff`). A negative `i32[2]` that is no multiple of five indexes
  before the array of workers (`JobPool.RouteIsIndex`).
- A way straight ahead that ends beside a blocked end tile counts as found, so `FindPath` looks no
  further (`PathFinders.PathFinder.FindPath`).
- `BuildPath` drops a path of exactly the buffer's length; it fits only with one place to spare
  (`PathFinders.PathFinder.BuildPath`).
- When A* fails, `FindPath` still returns the path to the nearest tile it met
  (`PathFinders.PathFinder.FindPathAStar`).
- The step limit is there against endless loops. A search that can reach n tiles, n at most 65536,
  takes no more than n(n+1)/2 rounds whatever the limit, so with more steps than that A* finds the end exactly
  when it can be reached (`PathFinders.PathFinder.FindAStar`; on the default limit, up to 44 tiles).

## Assumptions

Sequence numbers are unique; block memory is 8-aligned; sizes do not overflow `size_t`. Nobody uses an
arena while it is reset or destroyed, and a user's first block is at least as large as the header.
The ring has one writer and one reader, nobody clears it meanwhile, a length plus its framing is below
2^31, and integers are little-endian. The fallback database is a function of the name and has finitely
many files. `IsBlock` is any predicate on tiles. No tag still carries the number that a new search
takes. Descriptor strings stand for their addresses: a key of a map remembers which string it points to.

What a file finds while it is linked is called foreseeable when the pool has no fallback database, or
when it enforces dependencies, as is the default, and its tables are settled (`BuildStates.Settled`).
They are settled in a new pool, and every build and lookup leaves them so.

## Model

| member | source | states |
|---|---|---|
| ArenaSizes.RoundUp8 | lib/google/protobuf/arena.cc:173 | the least multiple of 8 that is not below the request |
| ArenaSizes.NewBlockSize | lib/google/protobuf/arena.cc:121-133 | a new block holds its header and the request; a thread's first block has at least the start size, a later one at least twice the latest or the maximum; only a large request takes it past that |
| ArenaSizes.NextIsDoubled | lib/google/protobuf/arena.cc:121-133 | for requests that fit, the k-th block of a thread has the start size doubled k times, up to the maximum |
| ArenaSizes.SizesAddUp | lib/google/protobuf/arena.cc:121-133 | below the maximum n blocks take the start size times 2^n - 1 |
| Arenas.NewBlockKeepsDoubling | lib/google/protobuf/arena.cc:121-146 | a new block keeps the blocks of every thread doubling |
| Arenas.OneThreadsSizes | lib/google/protobuf/arena.cc:227-235 | the space allocated to a thread that has the arena for itself is the sum of the doubled sizes |
| Arenas.SumUpdate | lib/google/protobuf/arena.cc:237-245 | handing out n bytes of one block raises the total by n |
| Arenas.Items | lib/google/protobuf/arena.h:891-895 | the registered cleanups, latest first |
| Arenas.FirstOwned | lib/google/protobuf/arena.cc:305-313 | the first block of the list that a thread owns, none before it |
| Arenas.Arena.constructor | lib/google/protobuf/arena.cc:61-66 | a new arena has no block, no cleanup and nothing handed out |
| Arenas.Arena.WithInitialBlock | lib/google/protobuf/arena.cc:68-84 | the user's block is the only one, belongs to the calling thread, and the thread's cache names it |
| Arenas.Arena.AddBlockInternal | lib/google/protobuf/arena.cc:153-160 | the block is the new head, and the hint unless it is full |
| Arenas.Arena.FindBlock | lib/google/protobuf/arena.cc:305-313 | the first block of the thread, or null when it has none |
| Arenas.Arena.AllocFromBlock | lib/google/protobuf/arena.cc:203-210 | the block's pos grows by n and the arena stays valid, its used space n larger |
| Arenas.Arena.NewBlock | lib/google/protobuf/arena.cc:121-146 | size by NewBlockSize, owned by the caller, its first n bytes taken |
| Arenas.Arena.SlowAlloc | lib/google/protobuf/arena.cc:212-225 | allocates in the thread's first block, or in a new head of the right size when that one is too full; the cache names the block; the pos and owner of all other blocks stay, and the caches of all other threads stay good |
| Arenas.Arena.AllocateAligned | lib/google/protobuf/arena.cc:171-201 | an aligned piece of the rounded size, past the header and inside a block of the caller, starting at that block's old pos; the block is the one in the cache or the hint if that has room, else the thread's latest or a new one; requests that fit keep the thread's blocks doubling from the start size to the maximum; no other block moves or changes its owner; the caches of all other threads stay good; used space grows by exactly the rounded size |
| Arenas.Arena.AllocateRounded | lib/google/protobuf/arena.cc:175-200 | the block in the cache or the hint if that has room, else SlowAlloc |
| Arenas.Arena.AddListNode | lib/google/protobuf/arena.cc:162-169 | the cleanup is the first of the list, its node a piece of 24 bytes as AllocateAligned gives, and the other blocks and threads are as after AllocateAligned |
| Arenas.Arena.CleanupList | lib/google/protobuf/arena.cc:295-303 | runs every registered cleanup exactly once, in reverse order of registration |
| Arenas.Arena.SpaceAllocated | lib/google/protobuf/arena.cc:227-235 | the sum of the block sizes |
| Arenas.Arena.SpaceUsed | lib/google/protobuf/arena.cc:237-245 | the sum of all rounded requests since the last Reset |
| Arenas.Arena.SpaceAllocatedAndUsed | lib/google/protobuf/arena.cc:247-258 | both sums at once |
| Arenas.Arena.FreeBlocks | lib/google/protobuf/arena.cc:260-293 | gives back each owned block once and never the user's, which stays as the only block; returns the sum of all sizes |
| Arenas.Arena.ResetInternal | lib/google/protobuf/arena.cc:109-119 | all cleanups run before any block is given back |
| Arenas.Arena.Reset | lib/google/protobuf/arena.cc:103-107 | the same under a new lifecycle id, larger than all that were seen, so that the cache of every other thread is stale |
| ArenaProtocol.FindBlockIsFirst | lib/google/protobuf/arena.cc:305-313 | the block found is the thread's first on the list |
| ArenaProtocol.StepKeepsInv | lib/google/protobuf/arena.cc:61-293 | no step of any thread on any arena touches or frees a block that is gone, and every step keeps the invariant |
| ArenaProtocol.RunKeepsInv | lib/google/protobuf/arena.cc:61-293 | the same over whole runs |
| ArenaProtocol.ReachableWorldIsSafe | lib/google/protobuf/arena.cc:171-225 | in every interleaving: a cache with an arena's id names a live block of that arena and thread; all pieces are aligned, inside live blocks and pairwise disjoint, also between arenas; used space is the sum of the pieces; the user's block is last |
| ArenaProtocol.OnlyOwnerMovesPos | lib/google/protobuf/arena.h:535-541 | until its own arena is reset only the owner of a block moves its pos, forwards, and owner and size do not change |
| ArenaProtocol.ResetLeavesOtherBlocks | lib/google/protobuf/arena.cc:260-293 | a Reset leaves the blocks of other arenas, and those not yet linked, as they are |
| ArenaProtocol.EachRequestIsServedOnce | lib/google/protobuf/arena.cc:171-225 | each allocation hands out exactly one piece, of the rounded size, in a block of the calling thread, and takes nothing back |
| ArenaProtocol.NewArenaKeepsInv | lib/google/protobuf/arena.cc:61-84 | a new arena with the next id keeps the invariant |
| ArenaProtocol.NextIdIsNew | lib/google/protobuf/arena.cc:61-66 | the next id is one that no arena has and no cache carries |
| ArenaProtocol.AllocKeepsInv | lib/google/protobuf/arena.cc:203-210 | taking the next n bytes keeps all pieces disjoint |
| ArenaProtocol.LinkKeepsInv | lib/google/protobuf/arena.cc:148-160 | linking a new block keeps lists disjoint and accounts right |
| ArenaProtocol.ResetKeepsInv | lib/google/protobuf/arena.cc:103-119 | a Reset keeps the invariant for all threads and arenas |
| ArenaProtocol.ResetMakesCachesStale | lib/google/protobuf/arena.cc:103-119 | after a Reset no thread but the caller believes its cache, and the caller's names the user's block |
| ArenaProtocol.DestroyKeepsInv | lib/google/protobuf/arena.cc:94-101 | the destructor leaves no cache that another arena would believe |
| ArenaAlone.AloneIsAllocateAligned | lib/google/protobuf/arena.cc:171-225 | a thread left alone after the start of an allocation is done after at most five steps, with the effect of AllocateAligned in memory |
| ArenaCleanups.MoveKeepsInv | lib/google/protobuf/arena.cc:162-169 | each step of AddListNode, the atomic swap of the head and the later store of next among them, and each step of the arenas keeps the cleanup lists whole |
| ArenaCleanups.EveryRunCleansUp | lib/google/protobuf/arena.cc:94-119 | in every interleaving of any threads on any arenas: each registered cleanup runs at most once, the latest first, before a block of its arena is given back, and those that have not run are still registered |
| ArenaCleanups.WalkMeetsAll | lib/google/protobuf/arena.cc:295-303 | the walk of CleanupList meets every registered node once, the latest first |
| ArenaCleanups.ResetReport | lib/google/protobuf/arena.cc:94-119 | in every reachable state Reset and the destructor run exactly the cleanups that are left, then give back the blocks, and return the sum of the block sizes |
| ArenaCleanups.FreedOnce | lib/google/protobuf/arena.cc:260-293 | what is given back is each block but the user's, once and with its size |
| ArenaCleanups.SpaceIsFreedAndKept | lib/google/protobuf/arena.cc:260-293 | what Reset returns is the size of what it gives back and of the user's block |
| DescriptorTables.RollbackRestores | lib/google/protobuf/descriptor.cc:826-871 | after any extension of the tables a rollback restores every map and list of the checkpoint |
| DescriptorTables.InnerCommitExtends | lib/google/protobuf/descriptor.cc:814-824 | a nested commit is still undone by the outer rollback |
| DescriptorTables.AddSymbolExtends | lib/google/protobuf/descriptor.cc:1021-1029 | adding a symbol, or failing to, only extends the tables |
| DescriptorTables.AddFileExtends | lib/google/protobuf/descriptor.cc:1037-1044 | the same for a file |
| DescriptorTables.AddExtensionExtends | lib/google/protobuf/descriptor.cc:1077-1085 | the same for an extension |
| DescriptorTables.ExecExtends | lib/google/protobuf/descriptor.cc:810-871 | any well-nested run of adds, builds, commits and rollbacks only extends the tables and leaves no key to a freed string |
| DescriptorTables.FailedBuildChangesNothing | lib/google/protobuf/descriptor.cc:4170-4172 | a failed build, whatever succeeded inside it, leaves the tables as they were |
| DescriptorTables.SucceededBuildKeepsOld | lib/google/protobuf/descriptor.cc:4173-4176 | a build that succeeds keeps every earlier entry and the enclosing checkpoints |
| DescriptorTables.Tables.AddCheckpoint | lib/google/protobuf/descriptor.cc:810-812 | remembers the lengths of all lists |
| DescriptorTables.Tables.ClearLastCheckpoint | lib/google/protobuf/descriptor.cc:814-824 | drops the checkpoint, and the pending lists with the last one |
| DescriptorTables.Tables.RollbackToLastCheckpoint | lib/google/protobuf/descriptor.cc:826-871 | erases what the pending lists name since the checkpoint and cuts the lists back |
| DescriptorTables.Tables.AddSymbol | lib/google/protobuf/descriptor.cc:1021-1029 | inserts when absent and notes the key |
| DescriptorTables.Tables.AddFile | lib/google/protobuf/descriptor.cc:1037-1044 | inserts when absent and notes the key |
| DescriptorTables.Tables.AddExtension | lib/google/protobuf/descriptor.cc:1077-1085 | inserts when absent and notes the key |
| BuildStates.NoImportCycles | lib/google/protobuf/descriptor.cc:3943-3957 | loaded files never import each other in a circle, except a file itself |
| BuildStates.ImportsDescend | lib/google/protobuf/descriptor.cc:3959-3973 | along any chain of imports the files are older and older |
| BuildStates.MeasureAfterPush | lib/google/protobuf/descriptor.cc:3962-3973 | putting a new name on the pending list makes the recursion's measure smaller, whatever was loaded meanwhile |
| BuildStates.MeasureAfterAddFile | lib/google/protobuf/descriptor.cc:4026-4034 | entering a file does so as well |
| BuildStates.BuildCommits | lib/google/protobuf/descriptor.cc:4170-4176 | committing a build leaves tables in which every new file's imports are loaded |
| FileBuilding.DescriptorPool.constructor | lib/google/protobuf/descriptor.cc:1151-1171 | a new pool has empty tables, which are settled |
| FileBuilding.DescriptorPool.TryFindFileInFallbackDatabase | lib/google/protobuf/descriptor.cc:1682-1694 | terminates; in a decided case (nothing left to load, links foreseeable) succeeds exactly when the database's file can be built; loads every member of a plan whose turn it is; changes nothing when the name is bad, unknown or under way; earlier entries stay |
| FileBuilding.DescriptorPool.IsSubSymbolOfBuiltType | lib/google/protobuf/descriptor.cc:1696-1716 | whether a proper dot-prefix of the name is a symbol other than a package |
| FileBuilding.DescriptorPool.TryFindSymbolInFallbackDatabase | lib/google/protobuf/descriptor.cc:1718-1757 | terminates; in a decided case succeeds exactly when the file that the database has for the symbol can be built; changes nothing when the database answers with a loaded file, or not at all |
| FileBuilding.DescriptorPool.BuildFileFromDatabase | lib/google/protobuf/descriptor.cc:3334-3347 | the same for the file itself, which is refused when it is known to be bad |
| FileBuilding.DescriptorPool.BuildFile | lib/google/protobuf/descriptor.cc:3923-3975 | terminates on cyclic imports; a file that is there already must match; one under way is refused; in a decided case, as always without a database, a new file is built exactly if it can be; a member of a plan whose turn it is is loaded |
| FileBuilding.DescriptorPool.LoadDependencies | lib/google/protobuf/descriptor.cc:3959-3973 | leaves the pending list as it was; for a member of a plan all imports are loaded afterwards, and nothing that ranks as high as the file |
| FileBuilding.DescriptorPool.LoadAll | lib/google/protobuf/descriptor.cc:3963-3971 | the loop: after its n-th round the first n imports of a member are loaded, and nothing changes when none of the imports can be loaded |
| FileBuilding.DescriptorPool.SelfImportIsBuilt | lib/google/protobuf/descriptor.cc:3952-3973 | a plain file that imports just itself is decided, and built |
| FileBuilding.DescriptorPool.LookupSpoilsLoading | lib/google/protobuf/descriptor.cc:1718-1757 | a lookup by symbol while q is under way makes a file that imports q known to be bad; once q is loaded it is still refused, although it can be built |
| LoadPlans.MemberCanBuild | lib/google/protobuf/descriptor.cc:3959-3975 | once its imports are loaded a member of a plan can be built, and asks the database for nothing else |
| LoadPlans.BuiltIsOnPlan | lib/google/protobuf/descriptor.cc:3959-3975 | building a member leaves tables that have come by loading members only |
| LoadPlans.ImportsAreLoaded | lib/google/protobuf/descriptor.cc:3959-3973 | whatever is imported along a chain of members from a loaded file on is loaded |
| LoadPlans.FittingCanBeBuilt | lib/google/protobuf/descriptor.cc:3711-3794 | files without links whose names fit together can be built in any order |
| FileBuilding.DescriptorPool.BuildFileImpl | lib/google/protobuf/descriptor.cc:3977-4177 | null means the tables are unchanged; success means the file, its package and symbols are there, its references resolve, and each extension has its number unless it was taken before or another file has it; where the outcome is foreseeable it succeeds exactly when CanBuild holds of the symbols and files of before, whatever the linking loads and whoever has an extension number |
| FileBuilding.DescriptorPool.AddPackage | lib/google/protobuf/descriptor.cc:3749-3774 | an error exactly when the name or a new parent is no identifier or the first old parent is no package; the new symbols are exactly the name and its parents up to the first old one; packages keep having packages as parents |
| BuildStates.LongerNameIsNoParent | lib/google/protobuf/descriptor.cc:3757-3766 | adding the package before its parents makes no difference to the parents |
| BuildStates.NewParentMeans | lib/google/protobuf/descriptor.cc:3749-3774 | declaring a package declares those of its dot-prefixes from which on nothing is there |
| BuildStates.PackageOkMeans | lib/google/protobuf/descriptor.cc:3749-3774 | a package can be declared exactly when what is new ends in identifiers and the longest prefix that is there is a package |
| BuildStates.FullNameIsInScope | lib/google/protobuf/descriptor.cc:4182-4188 | the components of a full name are those of the scope and the symbol's own name |
| BuildStates.ValidNamesConsistOfIdentifiers | lib/google/protobuf/descriptor.cc:3776-3794 | the names that the descriptor database takes are those made of the pool's identifiers |
| BuildStates.GoodAfterPackage | lib/google/protobuf/descriptor.cc:3711-3774 | which symbol names are good, told from the tables before the package was declared |
| FileBuilding.DescriptorPool.AddSymbols | lib/google/protobuf/descriptor.cc:3711-3794 | an error exactly when a symbol's own name is no identifier or its full name is taken or repeated; the new symbols are exactly the full names, each as the file defines it |
| FileBuilding.DescriptorPool.CheckDependencies | lib/google/protobuf/descriptor.cc:4039-4078 | an error exactly when an import is listed twice or is not loaded |
| FileBuilding.DescriptorPool.ValidPublic | lib/google/protobuf/descriptor.cc:4080-4097 | the positions that name an import, in order |
| BuildStates.ValidPositions | lib/google/protobuf/descriptor.cc:4084-4095 | as many as given exactly when all are valid, each the position of an import |
| BuildStates.ValidPositionsAreKept | lib/google/protobuf/descriptor.cc:4084-4095 | exactly the valid entries of the list are kept, in order |
| BuildStates.PublicEdgesAreListed | lib/google/protobuf/descriptor.cc:4084-4095 | the public imports of a built file are the imports whose positions its proto lists |
| BuildStates.PublicImportIsVisible | lib/google/protobuf/descriptor.cc:4084-4109 | what a loaded file imports publicly can be seen by each file that imports it |
| FileBuilding.DescriptorPool.VisibleFiles | lib/google/protobuf/descriptor.cc:4099-4103 | the direct imports and everything they reach by public imports |
| FileBuilding.DescriptorPool.CrossLinkFile | lib/google/protobuf/descriptor.cc:4134-4137 | without an error every reference resolves and every extension number is registered; where the outcome is foreseeable there is an error exactly when a reference fails on the tables of before or a field or extension number is used twice in the file |
| FileBuilding.DescriptorPool.LinkExtension | lib/google/protobuf/descriptor.cc:5002-5022 | the number of an extension counts only when its extendee and its type have been resolved; then it is an error exactly when the file has used it in that message before |
| FileBuilding.DescriptorPool.AddFieldByNumber | lib/google/protobuf/descriptor.cc:5160-5180 | an error exactly when the file has used the number in that message before |
| FileBuilding.DescriptorPool.Register | lib/google/protobuf/descriptor.cc:5181-5201 | registers the extension when no file has its number, and otherwise changes nothing; it is no error |
| BuildStates.AllLinkIff | lib/google/protobuf/descriptor.cc:4996-5180 | all links of a file are good exactly when each finds what it wants and no two fields or extensions have the same number in the same message |
| BuildStates.AddedIsRegistered | lib/google/protobuf/descriptor.cc:1077-1085 | the number is this extension's afterwards, unless it was taken before the build or another file has it |
| FileBuilding.DescriptorPool.FindSymbol | lib/google/protobuf/descriptor.cc:3444-3511 | finds only what the file may use, and always a symbol that is present and usable; where the outcome is foreseeable exactly what the tables of before hold, whatever it loads |
| FileBuilding.DescriptorPool.IsUsable | lib/google/protobuf/descriptor.cc:3479-3506 | exactly the symbols of the file, of the files it sees, and the packages that one of them is in |
| FileBuilding.DescriptorPool.LookupSymbolNoPlaceholder | lib/google/protobuf/descriptor.cc:3513-3585 | terminates though files are loaded between two tries; answers only with the name in an enclosing scope; where the outcome is foreseeable the answer is that of Resolve on the tables of before |
| FileBuilding.DescriptorPool.Resolve | lib/google/protobuf/descriptor.cc:5003-5015 | a target is resolved exactly when the lookup finds a symbol of a kind that is wanted |
| BuildStates.PrefixesArePackages | lib/google/protobuf/descriptor.cc:3749-3774 | in settled tables every dot-prefix of a package is a package |
| BuildStates.NewSymbolsAreUseless | lib/google/protobuf/descriptor.cc:3479-3511 | a symbol that was loaded while a file is linked is never one that the file may use |
| BuildStates.LoadingFindsNothingNew | lib/google/protobuf/descriptor.cc:3455-3465 | so the fallback lookup in FindSymbol changes nothing that the file finds |
| BuildStates.ResolvesAsForetold | lib/google/protobuf/descriptor.cc:3513-3585 | what the references find once the file is declared, told from the tables of before |
| FileBuilding.DescriptorPool.FindFileByName | lib/google/protobuf/descriptor.cc:1282-1297 | returns the database's file, as its proto has it, exactly when it can be built in a decided case, and always for a member of a plan; keeps all files' imports loaded and free of circles, and the tables settled |
| PublicDependencies.ClosedSetHoldsPath | lib/google/protobuf/descriptor.cc:3437-3442 | a set closed under public imports holds all that is reachable from it |
| PublicDependencies.DependencyRecorder.RecordPublicDependencies | lib/google/protobuf/descriptor.cc:3437-3442 | terminates on any graph; adds only reachable files and leaves what it adds closed |
| PublicDependencies.DependencyRecorder.BuildDependencySet | lib/google/protobuf/descriptor.cc:4099-4103 | the set is exactly the direct imports and what they reach by public imports |
| SymbolLookup.ComponentsJoinBack | lib/google/protobuf/descriptor.cc:3542-3555 | joining the components of a scope gives the scope back |
| SymbolLookup.JoinSplitsBack | lib/google/protobuf/descriptor.cc:3544-3551 | splitting joined components gives them back |
| SymbolLookup.StringLookupIsResolve | lib/google/protobuf/descriptor.cc:3542-3584 | chopping the scope string equals a recursion over its components |
| SymbolLookup.FirstPartIsFirst | lib/google/protobuf/descriptor.cc:3533-3540 | the first part of a name is its first component |
| SymbolLookup.LookupMeans | lib/google/protobuf/descriptor.cc:3513-3585 | a leading dot makes a full name; otherwise the innermost scope around the referring symbol that has something for the name decides, or the root |
| SymbolLookup.SubSymbolIsLonger | lib/google/protobuf/descriptor_database.h:209-210 | a sub-symbol has the components of its parent in front |
| SymbolLookup.InnermostDecides | lib/google/protobuf/descriptor.cc:3523-3533 | the innermost scope that has an acceptable symbol called like the first component of the name decides, with the whole name in that scope |
| SymbolLookup.RootDecides | lib/google/protobuf/descriptor.cc:3546-3548 | without one the root does |
| SymbolLookup.CompoundCommits | lib/google/protobuf/descriptor.cc:3559-3569 | once the first component is an aggregate, its scope decides even if the rest is missing |
| SymbolNames.LessIsStrict | lib/google/protobuf/descriptor_database.h:181-183 | the order of the keys is total and strict |
| SymbolNames.SubSymbolNotLess | lib/google/protobuf/descriptor_database.h:209-210 | a sub-symbol does not sort before its parent |
| SymbolNames.BetweenIsSubSymbol | lib/google/protobuf/descriptor_database.h:217-226 | a valid name between a symbol and its sub-symbol is a sub-symbol too |
| DescriptorIndexes.MatchIsFound | lib/google/protobuf/descriptor_database.h:199-228 | if a match exists, the last key not greater is the match |
| DescriptorIndexes.FindSymbolIsExact | lib/google/protobuf/descriptor_database.cc:179-186 | finds the value of the one key that equals the name or is a dot-prefix of it, and nothing exactly when there is none |
| DescriptorIndexes.SubSymbolsComeFirst | lib/google/protobuf/descriptor_database.cc:114-118 | if any key is a sub-symbol of the name, the next key is |
| DescriptorIndexes.ConflictsAreAdjacent | lib/google/protobuf/descriptor_database.cc:98-118 | a conflict shows in one of the two neighbours |
| DescriptorIndexes.AddSymbolIsExact | lib/google/protobuf/descriptor_database.cc:85-134 | accepts exactly valid names without a conflict, and those whose conflict is overlooked; the invariant breaks exactly in that case |
| DescriptorIndexes.GuardedAddKeepsInvariant | lib/google/protobuf/descriptor_database.cc:85-134 | with an empty map or a key not greater than the name, the invariant holds and exactly the conflicts are refused |
| DescriptorIndexes.AddSymbolCounterexample | lib/google/protobuf/descriptor_database.cc:213-223 | "foo" is accepted beside "foo.bar" |
| DescriptorIndexes.AddItemsOnlyAdds | lib/google/protobuf/descriptor_database.cc:52-83 | adding a file, even one that fails half-way, changes and removes no entry |
| DescriptorIndexes.AcceptedItemsArePresent | lib/google/protobuf/descriptor_database.cc:52-83 | every symbol and qualified extension of an accepted file is indexed under it |
| DescriptorIndexes.GuardedItemsKeepInvariant | lib/google/protobuf/descriptor_database.cc:67-80 | the invariant holds after a file, accepted or not, whose names sort after the first key |
| DescriptorIndexes.AcceptedFileIsFound | lib/google/protobuf/descriptor_database.cc:52-83 | what an accepted file declares outside all messages is found by its name in the package, and so is everything below it |
| DescriptorIndexes.FileItemsAreDeclared | lib/google/protobuf/descriptor_database.cc:61-80 | AddFile registers the names, within the package, of what the file declares outside all messages, and the extensions defined at any depth |
| DescriptorIndexes.AcceptedExtensionIsFound | lib/google/protobuf/descriptor_database.cc:137-171 | the extensions of fully qualified messages in an accepted file are found under them |
| DescriptorIndexes.NewSymbolsAreDeclared | lib/google/protobuf/descriptor_database.cc:61-80 | no other symbol is added, refused or not |
| DescriptorIndexes.AddFileKeepsConsistent | lib/google/protobuf/descriptor_database.cc:52-83 | a file found by symbol or extension is also found by name, even after a failed add |
| DescriptorIndexes.DescriptorIndex.FindLastLessOrEqual | lib/google/protobuf/descriptor_database.cc:213-223 | the entry before the first greater one, or the first |
| DescriptorIndexes.DescriptorIndex.FindSymbol | lib/google/protobuf/descriptor_database.cc:179-186 | computes the lookup that FindSymbolIsExact is about |
| DescriptorIndexes.DescriptorIndex.AddSymbol | lib/google/protobuf/descriptor_database.cc:85-134 | computes the insertion that AddSymbolIsExact is about |
| DescriptorIndexes.DescriptorIndex.AddExtension | lib/google/protobuf/descriptor_database.cc:149-171 | indexes a qualified extension once and accepts any other |
| DescriptorIndexes.DescriptorIndex.AddNestedExtensions | lib/google/protobuf/descriptor_database.cc:136-147 | adds the extensions of nested messages first, up to the first failure |
| DescriptorIndexes.DescriptorIndex.AddFile | lib/google/protobuf/descriptor_database.cc:52-83 | adds the items of the file in order, up to the first failure |
| MergedDatabases.FindByNameFirst | lib/google/protobuf/descriptor_database.cc:461-470 | the first source that has the name answers |
| MergedDatabases.FoundIsAnswered | lib/google/protobuf/descriptor_database.cc:461-470 | a file is found exactly when some source has the name, and it is the answer of a source |
| MergedDatabases.FindFileByName | lib/google/protobuf/descriptor_database.cc:461-470 | computes that |
| MergedDatabases.FindFileContaining | lib/google/protobuf/descriptor_database.cc:472-516 | the first source that has the item answers, unless an earlier source has a file of that name |
| MergedDatabases.FindFileContainingSymbol | lib/google/protobuf/descriptor_database.cc:472-492 | the first source that has the symbol answers unless an earlier one has a file of that name; a file found is the one its name finds |
| MergedDatabases.FindFileContainingExtension | lib/google/protobuf/descriptor_database.cc:494-516 | the same by extension |
| MergedDatabases.BuiltSourceIsConsistent | lib/google/protobuf/descriptor_database.cc:52-83 | any simple database, however it was filled, is such a source |
| CircleBuffers.WordRoundTrip | lib/base/detail/circle_buffer.cpp:70 | a length survives being written and read as four bytes |
| CircleBuffers.WordIsLittleEndian | lib/base/detail/circle_buffer.cpp:70 | the least byte of an integer comes first |
| CircleBuffers.StoreExtends | lib/base/detail/circle_buffer.cpp:9-26 | bytes written at the write position follow the content, across the wrap |
| CircleBuffers.FetchContent | lib/base/detail/circle_buffer.cpp:28-45 | bytes read at the read position are the front of the content |
| CircleBuffers.WriteAppends | lib/base/detail/circle_buffer.cpp:56-76 | a message is appended exactly when its frame fits with one byte to spare, else nothing changes |
| CircleBuffers.OldestInFront | lib/base/detail/circle_buffer.cpp:120-157 | the frame of the oldest unread message lies at the read position |
| CircleBuffers.ReadTakesOldest | lib/base/detail/circle_buffer.cpp:120-157 | delivers the oldest message, or -1 when there is none, or -2 when it is too long, and nothing else |
| CircleBuffers.EmptyIsExact | lib/base/detail/circle_buffer.h:36-39 | the positions are equal exactly when nothing is unread |
| CircleBuffers.CircleBuffer.Empty | lib/base/detail/circle_buffer.h:36-39 | true exactly when the ring holds no message |
| CircleBuffers.StoredTwice | lib/base/detail/circle_buffer.cpp:97-102 | writing pieces one after the other is writing them at once |
| CircleBuffers.CircleBuffer.Clear | lib/base/detail/circle_buffer.cpp:47-54 | all positions and counters are zero |
| CircleBuffers.CircleBuffer.RealWrite | lib/base/detail/circle_buffer.cpp:9-26 | every byte of the buffer afterwards |
| CircleBuffers.CircleBuffer.RealRead | lib/base/detail/circle_buffer.cpp:28-45 | every byte read, and the next position |
| CircleBuffers.CircleBuffer.Write | lib/base/detail/circle_buffer.cpp:56-76 | computes the write that WriteAppends is about |
| CircleBuffers.CircleBuffer.WriteV | lib/base/detail/circle_buffer.cpp:78-106 | acts as Write of the concatenation |
| CircleBuffers.CircleBuffer.Read | lib/base/detail/circle_buffer.cpp:120-157 | computes the read that ReadTakesOldest is about |
| RingProtocol.StepKeepsInv | lib/base/detail/circle_buffer.cpp:56-157 | every step of writer and reader, byte by byte, keeps the unread bytes intact |
| RingProtocol.InterleavingIsSafe | lib/base/detail/circle_buffer.cpp:56-157 | in every run messages arrive in order, the ring holds exactly the unread ones, and no read returns -3 |
| RingProtocol.EveryScheduleIsSafe | lib/base/detail/circle_buffer.cpp:56-157 | every schedule of the two sides has such a run: no step ever leaves the ring |
| RingProtocol.WriterNeverTouchesUnread | lib/base/detail/circle_buffer.cpp:58-68 | a write under way, even with a stale read position, never touches an unread byte |
| RingProtocol.ReaderAssertionHolds | lib/base/detail/circle_buffer.cpp:142-143 | the assertion in Read holds in every interleaving |
| RingProtocol.AloneWriteIsWrite | lib/base/detail/circle_buffer.cpp:56-76 | undisturbed, the steps of the writer are Write |
| ScatteredWrites.ChunksAreFrame | lib/base/detail/circle_buffer.cpp:97-102 | the length, the parts and the check word, one after the other, are the frame of the concatenation |
| ScatteredWrites.GStepIsStep | lib/base/detail/circle_buffer.cpp:78-106 | every step of WriteV, byte by byte over its parts, is the step of Write on the concatenation |
| ScatteredWrites.EveryScatteredScheduleIsSafe | lib/base/detail/circle_buffer.cpp:56-157 | every schedule of a reader and a writer that calls Write and WriteV is safe as in EveryScheduleIsSafe |
| RingProtocol.AloneReadIsRead | lib/base/detail/circle_buffer.cpp:120-157 | undisturbed, the steps of the reader on a message that fits are Read |
| RingProtocol.AloneReadOfNothing | lib/base/detail/circle_buffer.cpp:126-132 | undisturbed on an empty ring they return -1, as Read does |
| RingProtocol.AloneReadOfTooLong | lib/base/detail/circle_buffer.cpp:134-140 | undisturbed on a message that is too long they return -2 and leave it, as Read does |
| IBusLayout.AlignIsMasking | lib/base/detail/ibusm_cfg.cpp:102 | the mask computes the next multiple of 16 |
| IBusLayout.AdmissionFitsBudget | lib/base/detail/ibusm_cfg.cpp:42-49 | admitted channels fit the total size |
| IBusLayout.AdmissionIsGreedy | lib/base/detail/ibusm_cfg.cpp:42-58 | of all choices of valid channels that fit the total size, the admitted one favours earlier entries: where another choice first differs, it leaves out an entry that is admitted |
| IBusLayout.AdmissionIsFeasible | lib/base/detail/ibusm_cfg.cpp:42-58 | the admitted channels are themselves such a choice: valid entries that fit the total size |
| IBusLayout.AdmittedIsChosen | lib/base/detail/ibusm_cfg.cpp:42-58 | the admitted channels are the picked entries, in order |
| IBusLayout.GetChannels | lib/base/detail/ibusm_cfg.cpp:26-62 | computes that admission |
| IBusLayout.IBusHead.Create | lib/base/detail/ibusm_cfg.cpp:106-157 | keeps exactly the longest prefix whose aligned running end fits, each region where it belongs |
| IBusLayout.PrefixIsAll | lib/base/detail/ibusm_cfg.cpp:133-153 | all channels are kept exactly when the last one fits |
| IBusLayout.RegionsAreDisjoint | lib/base/detail/ibusm_cfg.cpp:135-143 | the kept regions are aligned, after the header, inside the segment and pairwise disjoint |
| ChannelSegments.RingFitsIff | lib/base/detail/ibusm_cfg.cpp:144-147 | clearing a ring leaves the bytes of the next region alone, whatever they are, exactly when its channel has more than 16 bytes |
| ChannelSegments.ClearStaysInside | lib/base/detail/circle_buffer.cpp:47-54 | Clear changes only bytes of the ring's integers |
| ChannelSegments.WriteStaysInside | lib/base/detail/circle_buffer.cpp:56-76 | Write changes only bytes of the ring's integers and of its data |
| ChannelSegments.ReadStaysInside | lib/base/detail/circle_buffer.cpp:120-157 | Read as well |
| ChannelSegments.ClearActsOnRing | lib/base/detail/circle_buffer.cpp:47-54 | on the bytes of the segment Clear is the Clear of CircleBuffers |
| ChannelSegments.WriteActsOnRing | lib/base/detail/circle_buffer.cpp:56-76 | and Write its Write |
| ChannelSegments.ReadActsOnRing | lib/base/detail/circle_buffer.cpp:120-157 | and Read its Read |
| ChannelSegments.RingsNeverOverlap | lib/base/detail/ibusm_cfg.cpp:135-147 | a change inside the ring of a channel with more than 16 bytes is no change in any other region |
| ChannelSegments.TinyRingReachesNext | lib/base/detail/ibusm_cfg.cpp:139-147 | Clear on a channel of at most 16 bytes sets the length of the ring in the next region to 0 |
| ChannelSegments.OperationIsLocal | lib/base/detail/ibusm_cfg.cpp:133-153 | a Write, Read or Clear on one channel acts on its queue as it should and leaves all other queues as they are |
| ChannelSegments.CreatedServes | lib/base/detail/ibusm_cfg.cpp:133-153 | CREATE leaves every kept channel empty and in its place |
| ChannelSegments.ChannelsAreIsolated | lib/base/detail/ibusm_cfg.cpp:106-157 | after any operations on any channels of a new segment each kept channel holds what the operations on it alone have left |
| SegmentProtocol.StepAgrees | lib/base/detail/circle_buffer.cpp:56-157 | what a step of Write, WriteV or Read stores in the segment is what it does to the ring of its channel, and reaches no byte outside that ring |
| SegmentProtocol.StepIsLocal | lib/base/detail/ibusm_cfg.cpp:106-157 | a byte step on one channel moves that channel alone |
| SegmentProtocol.ChannelsNeverDisturbEachOther | lib/base/detail/ibusm_cfg.cpp:106-157 | however the byte steps of the writers and readers of all kept channels are interleaved, each channel is as its own steps alone leave it: messages whole and in order, exactly the unread ones in its ring, no damaged data |
| ChannelSegments.ClearChannel | lib/base/detail/ibusm.cpp:57-67 | clears the first kept channel with the two ids, whatever its length as long as its ring's integers lie in the segment, and reports when there is none |
| ChannelSegments.KeptRingFitsIff | lib/base/detail/ibusm_cfg.cpp:136-147 | the integers of a kept ring lie in the segment unless it has at most 16 bytes and fewer than 4 bytes follow it, which can be true of the last kept one only |
| IBusLayout.AllKeptIff | lib/base/detail/ibusm_cfg.cpp:111-153 | the exact condition under which no channel is lost |
| IBusLayout.ExactBudgetLosesChannel | lib/base/detail/ibusm_cfg.cpp:106-153 | a configuration within budget that loses its last channel |
| IBusLayout.IBusHead.GetChannel | lib/base/detail/ibusm.cpp:39-55 | the first kept channel with both ids, or none |
| TileGrids.MoveNext | lib/engine/path_finder.h:1197-1215 | a move changes the king distance by one |
| TileGrids.GetDir | lib/engine/path_finder.h:1225-1237 | the direction whose offset has the signs of the difference |
| TileGrids.TurnsToThatSide | lib/engine/path_finder.h:1248-1263 | a straight direction turned by 90 degrees, a slanting one by 45, clockwise or anticlockwise as asked |
| TileGrids.NeighboursAreMoves | lib/engine/path_finder.h:1197-1237 | the eight moves reach exactly the tiles at king distance one, and GetDir names the move |
| TileGrids.TagIndex | lib/engine/path_finder.h:1102-1125 | a position of the tag array that TileToPoint maps back |
| TileGrids.TagsAndTilesMatch | lib/engine/path_finder.h:1102-1144 | TileToPoint and GetTileTag are inverse to each other wherever the map reaches |
| TileGrids.HasTagIff | lib/engine/path_finder.h:1102-1125 | a tile has a tag exactly inside the map and the window around the start |
| TileGrids.LegalIff | lib/engine/path_finder.h:587-597 | a legal move goes to a free neighbour, and a slanting one passes between two free tiles |
| TileGrids.StraightStep | lib/engine/path_finder.h:638-640 | one step towards the end reduces the king distance by one |
| TileGrids.StraightIsOnStraightWay | lib/engine/path_finder.h:1277-1325 | every tile of the way after the start satisfies IsOnStraightWay |
| TileGrids.ClosedSetHoldsReachable | lib/engine/path_finder.h:1000-1086 | a set that no legal move leaves holds all that is reachable |
| TileGrids.KingDistanceIsLeast | lib/engine/path_finder.h:369-374 | no path of neighbours is shorter than the king distance |
| TileTags.WithAround | lib/engine/path_finder.h:269-280 | writing the around mark leaves the directions, the parent and the search number alone |
| TileTags.WithMoveDirs | lib/engine/path_finder.h:269-280 | writing the directions leaves the around mark alone |
| TileTags.TraceFollowsParents | lib/engine/path_finder.h:1375-1402 | a trace goes from parent to parent |
| TileTags.SmoothedIsConnected | lib/engine/path_finder.h:1379-1390 | smoothing a way of neighbours leaves a way of neighbours |
| TileTags.SmoothedIsSelection | lib/engine/path_finder.h:1379-1400 | the smoothed way is a subsequence |
| TileTags.Smoothed | lib/engine/path_finder.h:1375-1411 | it keeps both ends and is not longer |
| TileTags.NothingToSmooth | lib/engine/path_finder.h:1382-1389 | a way without a marked shortcut stays as it is |
| SearchTrees.TagKeepsTree | lib/engine/path_finder.h:1038-1063 | a new tag or a relaxation keeps the parents a tree of neighbours with strictly fewer steps |
| SearchTrees.FrontierMoves | lib/engine/path_finder.h:1060-1084 | every tagged tile waits or is closed, as tiles become tagged |
| SearchTrees.AllDirectionsClose | lib/engine/path_finder.h:1029-1074 | after eight directions a tile is closed |
| SearchTrees.ExhaustedMeansReachable | lib/engine/path_finder.h:1002-1006 | with nothing left to try the tagged tiles are exactly the reachable ones |
| SearchTrees.TraceLeadsToStart | lib/engine/path_finder.h:1375-1402 | from a tagged tile the parents lead over free neighbours to the start, in at most as many moves as the tile has steps |
| StraightSearches.ChainGrows | lib/engine/path_finder.h:687-693 | each move of Approach links the next tile to the last |
| StraightSearches.TraceOfChain | lib/engine/path_finder.h:1375-1402 | the parents spell the straight way backwards |
| StraightSearches.TraceIsChain | lib/engine/path_finder.h:1375-1402 | the parents lead back tag by tag over the way |
| StraightSearches.FreeBoxAdvance | lib/engine/path_finder.h:636-699 | in a free box nothing stops the walk |
| StraightSearches.StraightNeedsNoSmoothing | lib/engine/path_finder.h:1382-1389 | smoothing does not touch the straight way, whatever the marks, stale or not |
| StraightSearches.StraightPathIsShortest | lib/engine/path_finder.h:369-374 | the straight path joins the ends, has neighbours only, is no longer than any other and lies on the straight way |
| SearchTrees.NearestMoves | lib/engine/path_finder.h:1066-1073 | the nearest tile stays a closest one as tiles become tagged |
| SearchBounds.CountAfterWrite | lib/engine/path_finder.h:1060-1063 | one written tag changes the number of tagged tiles and the sum of their steps by exactly what it adds |
| SearchBounds.LoweredPays | lib/engine/path_finder.h:1038-1063 | a new tag, or fewer steps in a tag, pays for one entry of the open list while the steps fit in 16 bits |
| SearchBounds.TagsAreReachable | lib/engine/path_finder.h:1002-1085 | a search tags no more tiles than legal moves reach |
| SearchBounds.MostRoundsClosed | lib/engine/path_finder.h:1000 | the most rounds of a search with n tagged tiles are n(n+1)/2 |
| SearchBounds.SmallMapIsEnough | lib/engine/path_finder.h:178 | on a map of at most 65536 tiles the number of tiles says how many steps are enough |
| PathFinders.InsertedIsSorted | lib/engine/path_finder.h:1082-1083 | the open list stays in order of score |
| PathFinders.SearchIsExhausted | lib/engine/path_finder.h:1002-1006 | an empty open list means the end is unreachable |
| PathFinders.PathFinder.GetTileTag | lib/engine/path_finder.h:1102-1125 | a tag exactly for tiles in the map and the window |
| PathFinders.PathFinder.TryNeighbour | lib/engine/path_finder.h:1029-1074 | one direction: exactly what is found and which tag changes, a tile reached in more steps being relaxed even if it cannot be entered; the tree stays a tree |
| PathFinders.FoundIsScored | lib/engine/path_finder.h:1076-1084 | an entry is scored by its distance to the end, its steps twice, what the surroundings add, and two for a slanting move |
| PathFinders.PathFinder.InsertAll | lib/engine/path_finder.h:1076-1084 | exactly what an expansion has added is put on the open list, with its score |
| PathFinders.PathFinder.Expand | lib/engine/path_finder.h:1024-1085 | one expansion keeps the search state and closes the tile; the scores of all new entries are distance plus steps, crowding and slant |
| PathFinders.PathFinder.FindAStar | lib/engine/path_finder.h:968-1089 | success reaches the end by legal moves; when nothing is left, tagged means reachable and the end is not; parents form a tree whose steps decrease if at most 65535 steps are allowed; after a failure m_pNearestTile is a tagged tile closest to the end; n tagged tiles (at most 65536) take no more than n(n+1)/2 rounds, so with enough steps for the reachable tiles it finds the end exactly when it is reachable |
| PathFinders.PathFinder.BuildPath | lib/engine/path_finder.h:1369-1414 | stores the smoothed way, forwards or mirrored, exactly when it has fewer tiles than the buffer; else returns 0 |
| PathFinders.StoredIsRead | lib/engine/path_finder.h:1393-1400 | what is read from the end of the buffer is the mirror image of what is stored from its front |
| PathFinders.PathFinder.FindPathAStar | lib/engine/path_finder.h:378-384 | a path of free neighbours from the start to the end, or after a failure to a tagged tile closest to it, within the step and buffer limits, on the map of the caller; with enough steps for the reachable tiles it reaches the end exactly when that is reachable |
| PathFinders.PathFinder.MarkTileVisited | lib/engine/path_finder.h:1172-1184 | exactly one tag changes, to MarkedVisited of what it was |
| StraightWalks.MarkedVisited | lib/engine/path_finder.h:1172-1184 | a tag keeps the parent it got first in this search, and has the direction |
| StraightWalks.MarkingAddsOne | lib/engine/path_finder.h:1172-1184 | a tag of the search keeps the directions of before and gets one more; any other has this one only; the around mark stays |
| StraightWalks.StartIsFresh | lib/engine/path_finder.h:624-629 | a start not tagged by the search has been visited in no direction |
| TileTags.OtherBitsStay | lib/engine/path_finder.h:1172-1184 | adding the bit of one direction leaves the others as they are |
| PathFinders.AroundOnBothSides | lib/engine/path_finder.h:666-682 | an obstacle is gone around on either side, in the direction half way or a quarter turn to that side, with the opposite turn |
| StraightWalks.Entered | lib/engine/path_finder.h:687-693 | what a move leaves in the tag it goes to: visited in the direction, not around, with the parent it got first |
| PathFinders.PathFinder.Approach | lib/engine/path_finder.h:609-702 | on any tags: goes straight up to the first move that leads out of the map, to a tile visited in that direction or past an obstacle, or until the steps are used up; all tags afterwards, the steps, the nearest tile, the result and what is queued to be gone around; on tags of earlier searches it is stopped by illegal moves only and leaves a chain of parents |
| StraightWalks.GoesAsBefore | lib/engine/path_finder.h:636-693 | a walk never changes the tags ahead of it, so what stops it shows in the tags from before |
| StraightWalks.AfterNext | lib/engine/path_finder.h:687-693 | one more move enters the next tile from the last one and changes no other tag |
| StraightWalks.CleanWalk | lib/engine/path_finder.h:609-702 | when the search has tagged only the start, the walk goes as far as moves are legal and leaves a chain |
| PathFinders.PathFinder.ApproachStep | lib/engine/path_finder.h:636-700 | one round on any tags: it moves on exactly over a free move to a tag not yet visited in that direction; which tag changes and how; what stops it, and what is queued then |
| PathFinders.LimitAllowsDetours | lib/engine/path_finder.h:374 | the limit is the king distance plus 5, so a straight path is never optimised further |
| PathFinders.PathFinder.FindPathFirst | lib/engine/path_finder.h:386-404 | the first search goes as far as moves are legal and steps last; it succeeds exactly at the end, or one short of an end that cannot be entered; the buffer then holds the straight path up to there; the map stays as it is |
| PathFinders.PathFinder.FindPath | lib/engine/path_finder.h:356-404 | FindPath looks no further exactly when the straight walk makes a move, ends at the end or one short of an end that cannot be entered, and fits the buffer, and then returns that walk; in a free box it is the straight path of king distance plus one tiles |
| JobPool.RouteIsIndex | http/http_master.cpp:88 | which keys pick a worker |
| JobPool.RouteIsRemainder | http/http_master.cpp:88 | the remainder of the key by five decides, with the sign of the key |
| JobPool.RoutedToConcat | http/http_master.cpp:86-91 | the jobs of a worker, over concatenated lists |
| JobPool.StepKeepsInv | http/http_worker.cpp:30-88 | no step loses, repeats or reorders a worker's jobs |
| JobPool.CallbacksFollowRequests | http/http_master.cpp:63-110 | in every run a worker's callbacks are a prefix of its requests and the rest wait, in order, in the master's batch and list and the worker's batch and list |
| JobPool.EmptyQueuesMeanAllCalled | http/http_master.cpp:93-110 | all requests of a worker were called back exactly when its four places are empty |
| JobPool.LatchesReleaseInTime | http/count_down_latch.cpp:9-26 | the latches release exactly when all workers have started, or ended |
| JobPool.HangingWorkerMissesStop | http/http_worker.cpp:72-96 | a worker hanging up without a job stays there whatever happens, until a request reaches it |
| JobPool.StopIsHeardIff | http/http_worker.cpp:24-96 | a worker whose stop flag is set comes to its end by its own steps exactly when it does not hang up without a job |
| JobPool.RoundAloneIsDealRound | http/http_worker.cpp:45-63 | an undisturbed round moves the worker's list to the end of the master's |
| JobPool.CountDownLatch.CountDown | http/count_down_latch.cpp:18-26 | counts down and wakes at zero |
| JobPool.HttpWorker.PushJob | http/http_worker.cpp:83-88 | appends the job |
| JobPool.HttpWorker.TakeBatch | http/http_worker.cpp:45-51 | takes all jobs and leaves none |
| JobPool.HttpMaster.constructor | http/http_master.cpp:16-37 | five distinct workers without jobs, and two latches that count five |
| JobPool.HttpMaster.RequestUrl | http/http_master.cpp:86-91 | the job goes to the worker its key picks and to no other, and no stop flag changes |
| JobPool.HttpMaster.PushFinishJob | http/http_master.cpp:63-71 | appends the job |
| JobPool.HttpMaster.DealRound | http/http_worker.cpp:45-63 | the round of RoundAloneIsDealRound, as a loop |
| JobPool.HttpMaster.ProcessFinishJobs | http/http_master.cpp:93-110 | calls back all finished jobs in order |

## Left out

- Arena: the hooks, type information and `ADDRESS_SANITIZER` marks; allocation of typed objects above `AllocateAligned`; overflow of sizes; memory orders weaker than sequential consistency.
- Arenas.Arena.AddListNode: in memory the node is an object of its own, so its address inside the allocated piece is not modelled; in `ArenaCleanups` a node is the piece that was handed out.
- Arena: `Arena` is not run under interleaving itself; `ArenaProtocol` is, and `ArenaAlone` shows that its steps have the effect of `AllocateAligned` when nothing comes between them.
- Descriptor pool: underlays, placeholders, `allow_unknown`, weak imports, unused-import warnings, syntax, options and their interpretation, source info and all error text.
- Descriptor pool: the contents of messages, enums, services and extensions; a proto is its name, package, imports, list of symbols, each with its scope and its own name, and list of references, fields and extensions to link. A reference says which kinds of symbol are wanted; the checks on what was found beyond its kind (extension ranges, default values, weak fields) are not modelled.
- FileBuilding.DescriptorPool.BuildFileImpl: the exact condition leaves out pools with a database in which `enforce_dependencies_` was turned off, where what is loaded counts.
- FileBuilding.DescriptorPool.BuildFile: the comparison with an existing file of the same name is any predicate, since it serialises protos.
- Descriptor database: `FindAllExtensionNumbers`, `EncodedDescriptorDatabase` and `DescriptorPoolDatabase`, and ownership of the protos.
- DescriptorIndexes.DescriptorIndex.AddFile: the ordered map is a sorted sequence, so its logarithmic cost is not modelled.
- Ring: `Clear` by a third party, overflow of the message counters, lengths that do not fit an `int`, big-endian machines. `CheckSum`'s -3 branch is in the value-level Read and shown unreachable.
- Channel layout: the configuration file's syntax, System V shared memory, and a segment that is resumed.
- Path finder: `Around`, `ConnectDirect`, `ConnectCorners` and `RecordCorner`, hence `FindPath` beyond its first search and its A* branch; `ABS` on the least integer.
- PathFinders.PathFinder.FindPath: it is described as far as its first search decides; what it returns when that has to go around something is left open.
- JobPool.HttpMaster.constructor: the threads that `Create` starts, and its wait on the latch, are steps of the pool (`JobPool.LatchesReleaseInTime`), not of this class.
- PathFinders.PathFinder.FindAStar: it is not claimed that its paths never cut corners: relaxation changes a parent before the corner is looked at. It is not claimed that they are shortest.
- PathFinders.PathFinder.Expand: of what the surroundings of a tile add to the scores only that it is the same for all new entries and at most eight; which of several paths is found is left open.
- FileBuilding.DescriptorPool.TryFindFileInFallbackDatabase: that a file with imports still to be loaded is loaded is claimed when its group can be built in any order and asks the database for symbols of nothing but imports (`LoadPlans.CanBeBuilt`); `LookupSpoilsLoading` shows why the second is needed.
- Job pool: the HTTP request itself, the JSON answer stored in a job, spurious wake-ups, and shutdown liveness.
