# A verified model of Granary

Granary is a dynamic binary translator. It decodes application code into basic blocks, joins
blocks into traces, rewrites their branches, lays them out in a code cache, and patches
branches while other CPUs execute them. This project models the parts of it whose
correctness is hard to see, and proves what each part is there for. To verify it, run
`dafny verify dfyconfig.toml` in this directory.

The modules follow the source:

- **Translation.** `Trace` is the fixpoint loop that follows jumps and splits blocks, with
  its termination and the reasons for which a jump is not followed; `SplitTrace` is a program
  on which a split is the reason. `Loops` is the rewriting of LOOP, JECXZ and REP instructions. `Linking`
  joins the blocks of a trace. `InstructionList` shows that the doubly linked list of
  instructions is a sequence, which is how the other modules treat it. `Stepping` has the
  runs of a step function that `Loops` and `Linking` share.
- **Layout.** `Align` places hot-patchable branches, `BumpAllocator` hands out slabs of
  memory, and `Emission` composes the two: reserve, give back, probe, align, allocate.
- **Branch lookup.** `Machine` is a small machine with registers, flags and a stack.
  `Policy` is the mangling of addresses with policies. `Ibl` is the emitted code of an indirect
  branch, the exit routines and the jump table; `GlobalLookup` is the routine behind them, in
  user space and, with `PrivateStack`, in the kernel. `IblRun` runs all of it while other CPUs
  add exit routines between any two instructions. `Spill` and `CleanCall` are the code that
  saves and restores state around calls.
- **Protocols between CPUs.** `CodeCache` is lookup, translation, publication and rollback,
  with `Publication` for what is in the table afterwards and `Rollback` for what is given back;
  `Dbl` is the patching of one branch by any number of CPUs; `Region` and `Heap` are the two
  global allocators. Each is a state machine in which every CPU or thread has its own program
  counter and takes one access to shared memory or one lock operation at a time. The theorems
  are about every run and every state of it. `Lookup` joins `CodeCache` to `IblRun`: in every
  run of the protocol every indirect branch ends in code that the protocol has for its key.
  `Race` is a run of `CodeCache` in which two CPUs make exit routines for one key with
  different targets, which is why the targets of a key are a relation.
- **Indexes.** `LinearProbing` is the theory of the two open-addressing tables, `HashTable`
  and `CpuCodeCache`. `BlockInfo` is the per-page index of fragments.
- **Liveness.** `RegisterManager` is the backward analysis, and `Liveness` relates it to the
  execution of instructions, whose operands it gives a meaning of its own.

Objects that the source updates in place are classes; their methods are proved against
functions or relations on a snapshot of the object, and the lemmas are about those.

Seven promises turn out not to hold as they stand. For each there is a concrete input or run,
and a theorem with the exact condition:

- While a request is pending, the code cache can run past the start of gencode
  (`Region.PendingMayOverlap`) or into the wrappers (`Region.PendingMayReachWrappers`). Some
  address is classified twice exactly when one of these has happened
  (`Region.ExclusiveExactly`), and never when no request is pending or faulted.
- The per-CPU cache can hold a key that `find` does not find, because `insert` tolerates one
  more probe than `find` makes: for any hash, nine keys with one home show it
  (`CpuCodeCache.StoredButNotFound`, `CpuCodeCache.NinthIsMissed`). `CpuCodeCache.Cache.Find`
  states exactly which keys are found. The probe loop of `insert` does not end on a full table;
  for any hash, 128 keys with different homes fill it (`CpuCodeCache.FullTableIsReachable`),
  and `CpuCodeCache.ProbeEndsExactly` says when the loop ends.
- `rep lods`, `lar`, `lsl` and `vmread` count their destination as dead although they may leave
  it unchanged (`Liveness.RepLodsIsUnsound`, `Liveness.LarIsUnsound`). `Liveness.SoundExactly`
  says, of any instruction that may leave a destination unchanged, when the analysis is sound.
- A jump that is to be followed can lead out of the finished trace although its target was in
  it: a branch into a block makes the block end there, and the jump that is added at its end is
  not followed, so the second half is lost (`SplitTrace.CutIsLeftOut`). `Trace.Builder.Build`
  states the only three reasons for which such a jump is left.
- The array of a fragment locator overflows in slabs of more than one page
  (`BlockInfo.PackedRun`, `BlockInfo.FitsExactly`).
- `granary_enter_private_stack` compares the upper 48 bits of two addresses to find out whether
  it is on the private stack already. Page alignment of that stack does not make this right
  (`PrivateStack.PageAlignedMayLose`): it is right for every address on the stack exactly when
  the stack does not cross a multiple of 64 KiB (`PrivateStack.DetectsExactly`), and a trip to
  the private stack and back is safe exactly under the condition of `PrivateStack.SafeExactly`.
- A displacement across two cache lines can be seen half written (`Dbl.TornRun`); the branch
  is coherent exactly when the displacement lies in one line (`Dbl.CoherentExactly`), which is
  what `Align` achieves.

The emitted mangling sequence agrees with the `mangled_address` constructor on canonical
addresses, and on others exactly when their top bits combine to the policy
(`Policy.EmittedMangleAgrees`).

## Model

| member | source | states |
|---|---|---|
| `Trace.FindBlock` | granary/basic_block.cc:791-808 | The result is the last block of the first run of blocks that contain the address under the same base policy, or there is no such block |
| `Trace.VisitJump` | granary/basic_block.cc:867-936 | A jump is marked exactly when its target is known, linked to the block with its key, left when it goes inside a block, and otherwise adds a block for a key that no block contained |
| `Trace.Builder.VisitBranches` | granary/basic_block.cc:813-943 | At most one block is added, right after the visited one, for a target that no block contained, and a fall-through is charged for it; a jump is left only when the fall-throughs are used up or its target is inside the code of a block |
| `Trace.Builder.FixupBranches` | granary/basic_block.cc:951-1045 | Links only change; either one splittable block is marked, to be split where an open branch of the trace leads, or every branch of the block is settled |
| `Trace.RerunIsLess` | granary/basic_block.cc:747-765 | Decoding a pending block again makes the lexicographic measure smaller: it ends at the split point, or stops being splittable, or was not decoded before |
| `Trace.UnusedShrinks` | granary/basic_block.cc:919-935 | Adding a block for a new key leaves fewer unused block starts |
| `Trace.Builder.Process` | granary/basic_block.cc:1138-1160 | A pending block becomes what the program has up to its split point, stays splittable exactly if it ends there, and its jump is followed as above; the measure is smaller, and at most the new successor is pending |
| `Trace.Builder.Extend` | granary/basic_block.cc:1130-1168 | One pass does this to the one pending block and to no other; the measure is smaller, and the range of the trace covers all decoded blocks |
| `Trace.Builder.Fixup` | granary/basic_block.cc:1174-1186 | The measure is unchanged; either one block is marked to be split, or only links change and all branches are settled |
| `Trace.Builder.Settle` | granary/basic_block.cc:1125-1186 | The fixpoint loop terminates, with nothing pending, everything settled, and a reason for every jump that is not followed |
| `Trace.Builder.Build` | granary/basic_block.cc:1094-1186 | At exit blocks have distinct keys, are what the program has there, and all but the first are led to by a jump; each linked branch goes to the block that starts at its target, each unlinked one finds no containing block or an unsplittable one; a jump to follow is left only if it is a fall-through and these are used up, or its target is inside a block that cannot be split, or in code that a split cut off |
| `Trace.RedecodedIs` | granary/basic_block.cc:747-765 | Decoding up to a split point gives what the program has there, and a block that can still be split exactly if an instruction starts there |
| `Trace.ProcessedFollows` | granary/basic_block.cc:813-943 | Every jump of the trace that is not followed keeps its reason when a block is decoded and the trace grows |
| `Trace.FollowedIsLeftOut` | granary/basic_block.cc:1125-1186 | In a settled trace these reasons are the three of `Build`; a block that cannot be split has an address inside that starts no instruction |
| `SplitTrace.CutIsLeftOut` | granary/basic_block.cc:847-852 | The turns of the loop on a concrete program: a jump to follow that is no fall-through ends up without a link, in no block, with all blocks splittable |
| `Loops.TranslationPreserves` | granary/basic_block.cc:291-417 | For every decoded list, state and counter, the rewritten list ends exactly as the original one does |
| `Loops.BranchIsKept` | granary/basic_block.cc:305-321 | The three-jump form of LOOP, LOOPE, LOOPNE and JECXZ does what the instruction does |
| `Loops.RepIsKept` | granary/basic_block.cc:338-361 | The unrolled REP loop equals the hardware iteration, by induction on the counter |
| `Loops.RepWhileIsKept` | granary/basic_block.cc:374-404 | The unrolled REPE or REPNE loop equals the hardware iteration with its condition |
| `Loops.AllRewritten` | granary/basic_block.cc:291-417 | No LOOP or JECXZ to an application address, and under the REP configuration no REP instruction, is left |
| `Loops.TranslateLoops` | granary/basic_block.cc:291-417 | The loop over the list, with the insertions of the source, produces the specified list |
| `Linking.LinkedExit` | granary/basic_block.cc:1005-1015 | Redirecting branches to start labels changes a block's exits only from a key to the block that has this key |
| `Linking.Optimise` | granary/basic_block.cc:1048-1072 | The in-place loop drops exactly the NOPs and a last jump to the next block |
| `Linking.OptimisedIs` | granary/basic_block.cc:1048-1072 | What is kept is the list without its NOPs, and without its last operation if that jumps to the next block |
| `Linking.OpsExit` | granary/basic_block.cc:1048-1072 | What is kept of a block does what the block does, also when the final jump is gone |
| `Linking.BlockExits` | granary/basic_block.cc:1200-1248 | In the concatenated trace each block leaves for the same key as the block by itself, or goes to the block with this key, in the same state |
| `Linking.TraceFollows` | granary/basic_block.cc:1200-1248 | For any number of exits, the trace gets to where the blocks run one by one get to, or has left at a point they go through |
| `Linking.BuiltIsLinked` | granary/basic_block.cc:1005-1015 | What the trace builder leaves is a trace whose links go to the blocks with the targets' keys |
| `Linking.BuiltTraceFollows` | granary/basic_block.cc:1125-1248 | Whatever the trace builder leaves, laid out and optimised, follows the program |
| `InstructionList.List.Append` | granary/instruction.cc:423-449 | Pointer surgery equals appending to the sequence, and keeps the list well linked |
| `InstructionList.List.Prepend` | granary/instruction.cc:452-478 | The same for prepending |
| `InstructionList.List.InsertBefore` | granary/instruction.cc:481-507 | The same for inserting before a node, or at the front before nothing |
| `InstructionList.List.InsertAfter` | granary/instruction.cc:511-537 | The same for inserting after a node, or at the end after nothing |
| `InstructionList.List.Chain` | granary/instruction.cc:590-606 | A node is linked in between two neighbours |
| `InstructionList.List.Remove` | granary/instruction.cc:541-576 | The node is taken out of the sequence and is free; null changes nothing |
| `InstructionList.List.RemoveTailAt` | granary/instruction.cc:580-586 | The list keeps what was in front of the node, and all nodes from it on are free |
| `InstructionList.List.Extend` | granary/instruction.cc:399-419 | The lists are concatenated and the argument is empty |
| `InstructionList.List.Walk` | granary/instruction.cc:627-649 | Following the next pointers from the first node visits exactly the sequence |
| `InstructionList.List.WalkBack` | granary/basic_block.cc:541-552 | Following the previous pointers from the last node visits it backwards |
| `Align.AlignedIsSafe` | granary/mangle.cc:784-878 | In the aligned list no patchable rel32 crosses a cache line, the program is the same, and the size is within the estimate |
| `Align.AlignedIsStable` | granary/mangle.cc:784-878 | Aligning an aligned list at the same place changes nothing |
| `Align.AlignedModLine` | granary/mangle.cc:784-878 | The result depends on the start address only modulo the line size |
| `Align.Pad` | granary/mangle.cc:820-870 | NOPs and a hint prefix move a branch by exactly the bytes it needs |
| `Align.AlignList` | granary/mangle.cc:784-878 | The loop computes the aligned list and returns its exact encoded size |
| `Emission.Probe` | granary/basic_block.cc:1260-1264 | Reserving, giving back and probing yields a line-aligned address with room for the worst case, unless its slab was surrendered, which happens exactly when slabs are shared and the address starts a slab |
| `Emission.EmitTrace` | granary/basic_block.cc:1260-1273 | At the final address no patchable rel32 crosses a line, the size is exact and within the estimate, and the bytes hold the fill value; the address is the probe, or congruent to it when the slab was surrendered, which happens exactly when slabs are shared and the probe starts a slab |
| `BumpAllocator.SlabSearch` | granary/bump_allocator.h:143-178 | The result is a first best fit, unlinked from the list; nothing is found exactly when nothing fits |
| `BumpAllocator.Allocator.AllocateSlab` | granary/bump_allocator.h:183-222 | The slab comes out of exactly one list or is fresh, and is large enough |
| `BumpAllocator.Allocator.AllocateBare` | granary/bump_allocator.h:226-308 | The new block is aligned, disjoint from all live ones, holds the fill value, and takes at most two turns and one new slab; index plus remainder is the size |
| `BumpAllocator.Allocator.AllocateStaged` | granary/bump_allocator.h:406-417 | The probe is where the next block starts; the front slab is given up exactly when slabs are shared and it is empty or was not there before |
| `BumpAllocator.Allocator.AllocateArray` | granary/bump_allocator.h:420-442 | Allocation with the minimum alignment of the allocator |
| `BumpAllocator.Allocator.Surrender` | granary/bump_allocator.h:383-401 | An empty front slab moves to a free list, and every slab is still in exactly one list |
| `BumpAllocator.Allocator.TryShareFree` | granary/bump_allocator.h:394-401 | The private free list is moved to the global one as a whole, or not at all |
| `BumpAllocator.Allocator.FreeLast` | granary/bump_allocator.h:450-484 | The last block, and only that, is given back and wiped |
| `BumpAllocator.Allocator.FreeAll` | granary/bump_allocator.h:487-521 | No block is live and all slabs are free, none lost |
| `BumpAllocator.SiblingStaysApart` | granary/bump_allocator.h:183-222 | A step of one allocator keeps the slabs of its siblings apart from its own |
| `HashTable.Table.Store` | granary/hash_table.h:293-317 | The table refines a map under both store policies, across growth; occupancy stays within the load limit plus one |
| `HashTable.Table.Insert` | granary/hash_table.h:153-195 | The map is updated also when a long scan makes the table grow |
| `HashTable.Table.Place` | granary/hash_table.h:153-195 | The probe loop ends, and inserts, overwrites or skips as the map requires |
| `HashTable.Table.Grow` | granary/hash_table.h:198-223 | Twice the slots, the same map |
| `HashTable.Table.Find` | granary/hash_table.h:262-282 | The probe loop ends with the mapped value, or the default for absent keys |
| `HashTable.Table.Load` | granary/hash_table.h:286-289 | Found exactly when the key is mapped to another value than the default |
| `HashTable.Set.Add` | granary/hash_table.h:343-352 | The set gains the key |
| `HashTable.Set.Remove` | granary/hash_table.h:354-356 | The set loses the key |
| `HashTable.Set.Contains` | granary/hash_table.h:358-360 | Membership |
| `LinearProbing.InsertKeepsWellFormed` | granary/hash_table.h:153-195 | Writing a new key at the first free probe keeps all keys reachable and extends the map |
| `LinearProbing.EmptyMeansAbsent` | granary/hash_table.h:262-282 | A free slot after other keys only means that the key is not in the table |
| `CpuCodeCache.Cache.Find` | granary/cpu_code_cache.cc:30-49 | The stored destination exactly when the probe displacement is below the scan bound, and null otherwise |
| `CpuCodeCache.Cache.Probe` | granary/cpu_code_cache.cc:54-94 | With a free slot or the key in the table, the loop stops at the first of them |
| `CpuCodeCache.Cache.Place` | granary/cpu_code_cache.cc:54-94 | The map gains, overwrites or keeps the entry |
| `CpuCodeCache.Cache.Grow` | granary/cpu_code_cache.cc:97-112 | The relation of keys to destinations is the same |
| `CpuCodeCache.Cache.Store` | granary/cpu_code_cache.cc:116-135 | The latest store that writes a key determines its destination |
| `CpuCodeCache.ProbeEndsExactly` | granary/cpu_code_cache.cc:54-94 | Insertion ends if and only if a slot is free or holds the key |
| `CpuCodeCache.FullTableIsReachable` | granary/cpu_code_cache.cc:54-94 | For any hash, storing 128 keys with different homes in an empty cache fills it without growth, and then the store of any other key does not end |
| `CpuCodeCache.StoredButNotFound` | granary/cpu_code_cache.cc:54-94 | For any hash, storing nine keys with one home in an empty cache puts the ninth, without growth, at the displacement that `find` does not reach |
| `CpuCodeCache.StoreAll` | granary/cpu_code_cache.cc:116-135 | Storing keys in turn goes through exactly the tables of their run, and all of them are in the cache |
| `CpuCodeCache.NinthIsMissed` | granary/cpu_code_cache.cc:30-94 | After these nine stores the last key is in the cache, and looking it up returns null |
| `CpuCodeCache.FillTable` | granary/cpu_code_cache.cc:54-94 | After those 128 stores the cache has no room for any other key |
| `CpuCodeCache.RoomExactly` | granary/cpu_code_cache.cc:54-94 | A store has room if and only if its probe loop ends |
| `Policy.InheritKeepsIdDropsTemporary` | granary/policy.h:444-463 | Inheritance keeps the id, drops temporary bits, and composes with the base policy |
| `Policy.PackBase` | granary/policy.h:361-370 | The base policy of the bits is the base policy of the bit-fields |
| `Policy.PackInherit` | granary/policy.h:444-463 | Inheritance takes the four lasting properties of the other policy, without the one for user data on a call, and keeps the own id |
| `Policy.PackHost` | granary/policy.h:133-176 | Setting the host context in the bits is setting the bit-field |
| `Policy.PackWantsExit` | granary/policy.h:133-176 | The test for an exit routine on the bits is the test on the bit-fields |
| `Policy.MangleRoundTrip` | granary/policy.cc:58-81 | The policy is always recovered, the address exactly when it is canonical |
| `Policy.MangleInjective` | granary/policy.cc:66-72 | Canonical addresses and policies never share a key |
| `Policy.EmittedMangleAgrees` | granary/ibl.cc:69-74 | The emitted byte swaps compute the constructor's value exactly when the top bits combine to the policy, so for all canonical addresses |
| `Policy.EmittedHashAgrees` | granary/x86/utils.asm:25-31 | The shifts in the stub compute the hash of the assembly routine |
| `Ibl.StubEffect` | granary/ibl.cc:57-105 | The stub arrives in the lookup with the mangled target, its slot, and all application state saved |
| `Ibl.RoutineHits` | granary/ibl.cc:120-190 | An exit routine for the key restores everything and goes to its target |
| `Ibl.RoutineMisses` | granary/ibl.cc:120-190 | An exit routine for another key goes on to the next one with the lookup state intact |
| `Ibl.StubReaches` | granary/mangle.cc:39-184 | The code of an indirect JMP, CALL or RET gets to its jump through the slot of the mangled target, with steps that come out the same however the jump table is written meanwhile |
| `Ibl.ChainHits` | granary/ibl.cc:120-190 | A chain that has the key, any number of times and with any targets, leaves for one that is right for the key, with all application state restored |
| `Ibl.ChainMisses` | granary/ibl.cc:120-190 | A chain of any length without the key leads to the global lookup with the lookup state intact |
| `Ibl.ExitKeepsTable` | granary/ibl.cc:120-190 | Adding an exit routine with a right target keeps every slot of the jump table valid, also when the key has routines with other targets |
| `Ibl.AddedKeepTable` | granary/code_cache.cc:268-278 | So do any number of them, by any CPUs, one after the other under the lock |
| `GlobalLookup.GlobalCalls` | granary/ibl.cc:197-254 | In both forms the global lookup gets to its call of `find` with the key as argument, in the kernel with interrupts disabled |
| `GlobalLookup.AnswerLeaves` | granary/ibl.cc:251-281 | In both forms, whatever `find` does within the ABI and in whichever world it returns, execution goes on at the label it returned, with registers, flags, stack pointer and stack as the transfer leaves them |
| `GlobalLookup.RoutinesMeet` | granary/x86/stack.asm:10-88 | The assembly routines meet what the kernel form assumes of a stack switch |
| `PrivateStack.EnterMeets` | granary/x86/stack.asm:10-75 | Entering ends on the private stack, or stays on it, with two copies of the old stack pointer, and keeps the registers; it returns to its caller exactly when its frame does not lie over the return address |
| `PrivateStack.ExitMeets` | granary/x86/stack.asm:77-88 | Leaving goes back to the saved stack pointer and to its caller |
| `PrivateStack.RoundTripKeeps` | granary/x86/stack.asm:10-88 | Entering, any call and leaving give back the stack pointer and all words that are not on the private stack |
| `PrivateStack.SafeExactly` | granary/x86/stack.asm:27-35 | The trip is safe for all stack contents and all calls if and only if the stack in use is recognised as the private one or does not overlap it |
| `PrivateStack.DetectsExactly` | granary/x86/stack.asm:27-35 | Every address on the private stack is recognised if and only if the stack does not cross a multiple of 64 KiB |
| `PrivateStack.PageAlignedMayLose` | granary/state.h:61-64 | A page-aligned private stack on which a nested entry loses words |
| `IblRun.TableAt` | granary/ibl.cc:120-190 | The jump table is valid at all times, while CPUs add routines |
| `IblRun.GlobalLeads` | granary/ibl.cc:197-293 | The global lookup makes one call of `find` and leaves for a right target, also when the routine was emitted during the call, by this or another CPU |
| `IblRun.ChainLeads` | granary/ibl.cc:120-190 | From the chain that the slot held at the jump: by a hit without a call if the chain has the key, and by the global lookup otherwise, whatever is added meanwhile |
| `IblRun.IndirectBranch` | granary/mangle.cc:39-184 | An indirect JMP, CALL or RET ends in code that is right for the mangled run-time target, with registers, stack pointer, stack and saved flags as the transfer itself leaves them, whatever exit routines are added between any two instructions; `find` is called at most once, and not for a key that has a routine |
| `IblRun.SecondTimeHits` | granary/ibl.cc:120-190 | Once any CPU has added a routine for a key, every later branch with this key runs to a right target without a call of `find` |
| `IblRun.FirstMissIsCovered` | granary/ibl.cc:178-189 | A `find` that waits for the routine to be emitted and returns its label meets what is assumed of it |
| `Lookup.RunIsValid` | granary/code_cache.cc:268-278 | In every run of the protocol the additions to the jump table are right, so that it is valid at all times |
| `Lookup.FindMeets` | granary/code_cache.cc:268-281 | What `find` returns for an indirect branch, also to the loser of the store, is what the global lookup needs |
| `Lookup.BranchesAreRight` | granary/code_cache.cc:95-281 | In every run of the protocol on any number of CPUs, an indirect branch that starts at any time ends, as the transfer itself would, in code that the protocol has for its key |
| `Spill.BracketRestores` | granary/emit_utils.cc:183-222 | Pops in reverse order restore the pushed registers and the stack pointer, whatever runs in between |
| `CleanCall.Dead` | granary/register.cc:715-725 | The enumeration has each register that is neither live nor taken once, in order, and never the stack pointer |
| `CleanCall.NextZombie` | granary/register.cc:715-725 | A zombie is the head of that enumeration, and the rest remains |
| `CleanCall.SaveAndRestore` | granary/emit_utils.cc:231-249 | The insertions make a perfectly nested sequence of pushes and pops of exactly these registers, behind the given instruction, or at the end when there is none |
| `CleanCall.InsertBracket` | granary/emit_utils.cc:231-249 | Each turn puts a new innermost bracket in place |
| `CleanCall.SaveAndRestoreXmm` | granary/emit_utils.cc:254-289 | The insertions make a window around the label: room on the stack, stores in front of it, loads behind it with the same displacements, and the room given back |
| `CleanCall.OpenEffect` | granary/emit_utils.cc:254-289 | Every set of xmm registers is stored below the stack pointer, which stays aligned, and nothing at or above it is written |
| `CleanCall.CloseEffect` | granary/emit_utils.cc:254-289 | The loads bring back the stored registers and no others, and the stack pointer is back |
| `CleanCall.AlignEffect` | granary/emit_utils.cc:426-434 | After aligning, the old stack pointer is at a fixed offset, whichever way the alignment goes |
| `CleanCall.AlignedCallEffect` | granary/emit_utils.cc:426-444 | The callee is entered once, with the registers of the caller and an aligned stack; the stack pointer, the stack and the saved xmm registers come back, and all else is as the callee left it |
| `CleanCall.CleanCallRestores` | granary/emit_utils.cc:466-557 | In user space and in the kernel, for a callee that respects the ABI from any 8-aligned stack pointer and for any other callee, the routine enters the callee with the registers of the caller, in the kernel with interrupts disabled; afterwards the stack pointer, the stack, all flags, the saved registers and in user space the saved xmm registers are restored, and every other register has the value that the callee left |
| `CleanCall.AbiCallKeeps` | granary/emit_utils.cc:466-557 | So the saved registers and those that the callee keeps are the same after the call |
| `CleanCall.BuildCleanCall` | granary/emit_utils.cc:466-557 | The insertions of the source build exactly the code that `CleanCallRestores` is about, in all four variants, for the dead registers of the manager |
| `RegisterManager.Manager.Kill64` | granary/register.cc:691-699 | Only writes that replace a whole register kill it, and nothing kills the stack pointer |
| `RegisterManager.Manager.VisitDests` | granary/register.cc:442-510 | The live set before the destinations, as a set expression without an order, which `Liveness` relates to execution |
| `RegisterManager.Manager.Visit` | granary/register.cc:574-588 | The live set before an instruction |
| `RegisterManager.Manager.VisitAll` | clients/watchpoints/instrument.h:651-675 | A backward pass computes the live set before the whole list |
| `RegisterManager.Manager.GetZombie` | granary/register.cc:715-725 | The lowest register that is neither live nor taken, which is then taken |
| `RegisterManager.DestOrderIrrelevant` | granary/register.cc:442-510 | The order of destinations is irrelevant |
| `Liveness.SoundExactly` | granary/register.cc:574-588 | With operands read as the hardware reads them, visiting an instruction is sound if and only if every register that it may leave unchanged and that is needed after it is read by it, or the instruction is BSF or BSR |
| `Liveness.MattersExactly` | granary/register.cc:574-588 | A register makes a difference to what is live after an instruction if and only if the instruction reads it, or it is live after and not certainly overwritten |
| `Liveness.AnalysisIsPrecise` | granary/register.cc:574-588 | The analysis reports no other register alive, but for the destinations of BSF and BSR |
| `Liveness.BranchIsConservative` | granary/register.cc:581-585 | Before a branch, agreement on the reported registers is enough for whatever is live where it goes |
| `Liveness.RepLodsIsUnsound` | granary/register.cc:442-510 | `rep lods` with a zero counter tells two states apart that agree on the live registers |
| `Liveness.LarIsUnsound` | granary/register.cc:442-510 | The same for `lar`, `lsl` and `vmread`, whose destination is not among their sources |
| `Liveness.ReadingIsFaithful` | granary/register.cc:574-588 | An instruction that reads what it replaces, as CMOVcc does, is analysed soundly |
| `Liveness.LivenessIsSound` | granary/register.cc:442-510 | States that agree on memory and the registers live before a list agree on memory and the live-out registers after it |
| `Liveness.DeadIsFree` | granary/register.cc:715-725 | A register that is dead before a list can be given any value there, which is what a zombie is used for |
| `Region.CheckedPair` | granary/allocator.cc:107-166 | Of two requests, the one that checks last sees the other's update |
| `Region.RunKeepsInv` | granary/allocator.cc:107-166 | The invariant of update-then-check holds in every interleaving |
| `Region.ReturnedIsDisjoint` | granary/allocator.cc:107-166 | Any two requests that have returned have disjoint memory inside the region |
| `Region.FaultedMeansFull` | granary/allocator.cc:107-166 | A request faults only when the ends have crossed, or the wrappers have run past the end of the region |
| `Region.QuietIsExclusive` | granary/allocator.cc:175-190 | With no pending or faulted request no address is classified twice |
| `Region.ExclusiveExactly` | granary/allocator.cc:175-190 | Some address is classified twice if and only if the code cache has run past the start of gencode, or into the wrappers |
| `Region.ReachableExclusiveExactly` | granary/allocator.cc:175-190 | The same for every state of every run |
| `Region.PendingMayOverlap` | granary/allocator.cc:107-166 | A run in which two pending requests make an address count twice |
| `Region.PendingMayReachWrappers` | granary/allocator.cc:107-166 | A run without gencode in which a pending request makes a wrapper address count as code cache too |
| `Heap.AllocationSizeIsLeast` | granary/allocator.cc:240-262 | A request is rounded to the least power of two, at least 8, that holds it |
| `Heap.RunKeepsInv` | granary/allocator.cc:320-391 | The heap invariant holds under every interleaving of unlocked reads, bumps, pops and pushes |
| `Heap.HeapIsConserved` | granary/allocator.cc:320-391 | Every byte below the bump index is in exactly one block, which has exactly one owner; blocks of a free list have its size |
| `Heap.AllocationIsExclusive` | granary/allocator.cc:320-391 | What an allocation returns has the right size and was nobody else's |
| `Heap.CarvedWhenNoneFree` | granary/allocator.cc:331-350 | New memory is carved only by a thread that has seen no free block of the class: freed blocks are used again first |
| `Heap.FreedIsFirst` | granary/allocator.cc:375-391 | When a free is about to return, its block is the first of the free list of its class |
| `Heap.TakenIsFirst` | granary/allocator.cc:351-367 | An allocation from a free list takes its first block, and the rest stays |
| `Heap.FreeEndsThere` | granary/allocator.cc:375-391 | A free returns only after that, for the block that it was called with |
| `Dbl.WrittenOnce` | granary/dbl.cc:64-167 | In every interleaving the target and the rel32 are written at most once, in this order |
| `Dbl.OneTarget` | granary/dbl.cc:64-167 | All patchers return to the stub or to one and the same target |
| `Dbl.ReturnsToTarget` | granary/dbl.cc:85-140 | A patcher returns to the resolved target, and to the stub exactly if it did not get the lock and the target was not resolved |
| `Dbl.FailsWhileHeld` | granary/dbl.cc:85-93 | The try-lock fails only while another patcher has the lock |
| `Dbl.QuietIsPatched` | granary/dbl.cc:140-167 | Whenever nobody has the lock, a branch whose target is resolved is patched |
| `Dbl.AtomicIsCoherent` | granary/dbl.cc:150-166 | With the rel32 in one line, the branch always goes to the stub or the target |
| `Dbl.CoherentExactly` | granary/dbl.cc:150-166 | That holds in all runs if and only if the rel32 lies in one cache line |
| `Dbl.AlignedBranchIsCoherent` | granary/dbl.cc:150-166 | It holds for every patchable branch of an aligned trace |
| `CodeCache.RunKeepsInv` | granary/code_cache.cc:95-281 | The invariant of lookup, translation, publication and rollback holds in every interleaving |
| `CodeCache.EntriesAreRight` | granary/code_cache.cc:95-281 | A code entry names encoded code that is never rolled back, for exactly the key, which has a base policy; an exit routine only stands under a key of an indirect branch or return, for this key and with a right target |
| `CodeCache.FindIsRight` | granary/code_cache.cc:95-281 | What `find` returns is right for the key asked for, and stays right for the rest of the run; for an indirect branch or return it is an exit routine for exactly this key |
| `Publication.TranslationIsStored` | granary/code_cache.cc:213-260 | In every run, when a translation ends, the table has what it returns under the base key: the block that it wrote, with all inner blocks of its trace stored before, or the block that was first |
| `Publication.ReturnedIsStored` | granary/code_cache.cc:95-281 | What `find` returned is in the table from then on, code under the key of its block and an exit routine under the key asked for; a key that must be attached to is never detached |
| `Publication.StoredIsFound` | granary/code_cache.cc:108-116 | A call for a key that is in the table returns its entry in one step |
| `Publication.StoredIsNotTranslated` | granary/code_cache.cc:108-154 | Once a key is in the table, no call that begins later translates it |
| `Publication.SecondFindHits` | granary/code_cache.cc:95-281 | After a `find` that returned code, later calls on any CPU do without a translation of this block, and calls for its key, or for a key that got an exit routine, return at once with what is right |
| `CodeCache.AllExitsAreRight` | granary/code_cache.cc:268-278 | Every exit routine that was ever made, also one that another CPU's came before, leaves for a target that is right for its key |
| `Race.TargetsMayDiffer` | granary/code_cache.cc:249-278 | A run of two CPUs that ends with two exit routines of one key and different targets |
| `CodeCache.RollbackFreesOwn` | granary/code_cache.cc:227-242 | Whatever a step frees was allocated by the translation that frees it; committed code is never freed |
| `CodeCache.RollbackIsComplete` | granary/code_cache.cc:227-242 | A losing translation has given back all of its code bytes, and the winner is in the table |
| `Rollback.RollbackGivesBack` | granary/code_cache.cc:235-237 | It has also given back its stubs, and the last block state that it allocated |
| `CodeCache.WinnerIsSound` | granary/code_cache.cc:239-241 | The load after a lost store always succeeds, with a right target |
| `CodeCache.AddedIsSound` | granary/basic_block.cc:1361-1365 | Adding an internal block of a trace keeps every entry right |
| `BlockInfo.GetBlock` | granary/basic_block_info.cc:71-89 | The scan over a trace returns the block around the address |
| `BlockInfo.Search` | granary/basic_block_info.cc:93-124 | Bisection agrees with a linear scan of the fragments |
| `BlockInfo.StoreKeepsInv` | granary/basic_block_info.cc:139-179 | Storing keeps all locators sorted and disjoint, also when a trace makes pages share one |
| `BlockInfo.RemoveKeepsInv` | granary/basic_block_info.cc:208-232 | Removing the last block keeps them so |
| `BlockInfo.RunKeepsInv` | granary/basic_block_info.cc:139-232 | Fragments are sorted and disjoint in every reachable state |
| `BlockInfo.HoldsIsUnique` | granary/basic_block_info.cc:185-199 | In every reachable state an address is in at most one stored block |
| `BlockInfo.StoredHolds` | granary/basic_block_info.cc:139-179 | Storing a trace adds exactly its blocks |
| `BlockInfo.RemovedHolds` | granary/basic_block_info.cc:208-232 | Removing a block removes exactly this block |
| `BlockInfo.HoldsExactly` | granary/basic_block_info.cc:139-232 | In every run, the stored blocks around an address are exactly those that were stored there and not removed since; by `Index.Find` this is what a search returns |
| `BlockInfo.RightLocator` | granary/allocator.cc:101-104 | The page of an address in a stored block leads to the locator that lists the block |
| `BlockInfo.Index.Find` | granary/basic_block_info.cc:185-199 | The result is the stored block around the address, and nothing only if no locator has one |
| `BlockInfo.Index.StoreTrace` | granary/basic_block_info.cc:139-179 | The in-place update is the step that `StoredHolds` and the run theorems are about |
| `BlockInfo.Index.RemoveBlock` | granary/basic_block_info.cc:208-232 | The in-place update is the step that `RemovedHolds` and the run theorems are about |
| `BlockInfo.FitsExactly` | granary/basic_block_info.cc:127-130 | The fixed array suffices in all runs if and only if slabs have at most one page |

## Left out

- DynamoRIO's decoder and encoder, and the hash functions: uninterpreted functions (lengths, decoded blocks, hashes).
- Client instrumentation: it is taken to leave the instruction list as decoded.
- Detach points, wrappers and host or module address ranges: arbitrary answers at each step of `CodeCache`; wrappers register any keys but those of indirect branches and returns.
- Kernel entry, initialisation, performance counters, logging, and the scripts.
- Trace.Builder.Build: for blocks with at most one jump to follow; blocks as decoded have no more, and the termination argument needs it. Decoding up to a limit stops there if an instruction starts there, with a jump that is not followed, and has no effect otherwise.
- Conditional branches as trace successors: modelled as in the configuration in which only jumps and fall-throughs are followed.
- Loops: intra-list branches do not exist before the rewriting, so targets of decoded lists are application addresses.
- Loops.RepIsKept: string instructions are any function of memory and the zero flag that does not touch the counter.
- IblRun.IndirectBranch: the overflow flag is not among the saved flags, because LAHF does not save it; the memory operand of the branch is not a slot of the jump table and is not written by others while the branch runs.
- GlobalLookup: FS and GS operands, operands indexed off the stack pointer, and the red zone.
- GlobalLookup.AnswerLeaves: in the kernel form, words of the private stack are not promised to stay; `find` is taken not to use xmm registers, as it is compiled.
- Lookup.BranchesAreRight: that the step of the protocol that makes an exit routine emits its code and writes its slot at once is how the two models are joined; addresses of code are any words, and keys that mangle to one word are not told apart (`Policy.MangleInjective` says when there are none).
- PrivateStack: the entry and exit routines are modelled on the stack, the registers they save, `rax` and the interrupt flag; addresses are unbounded integers.
- RegisterManager: xmm masks, and `decode`; `CleanCall` takes the dead xmm registers as a list.
- Liveness.LivenessIsSound: for lists of instructions that meet the condition of `Liveness.SoundExactly`, since the analysis is unsound on others; which further instructions may leave a destination unchanged is an input of the model; flags are not tracked.
- Policy: the id as a number of at most eight bits; the tables of policy visitors.
- HashTable.Table.Store: the load limits of the table of 32 sizes are computed for every size.
- CodeCache.EntriesAreRight: linking of branches to code that is already in the cache happens inside a translation and is not followed.
- BlockInfo: the debug assertion that later pages of a trace have no locator yet; the model overwrites such a page as the release build does.
- BumpAllocator.Allocator.FreeAll: for allocators that do not mix it with staged allocations or `free_last`, as in the source.
- Region and Heap: addresses and sizes are unbounded, so wrap-around of 64-bit sums is not part of this model.
- Dbl: a store inside one cache line is one step, and one across two lines shows its lower part first.
- Linking: the return from a CALL into the middle of a block; a CALL leaves its block like a branch.
- `mangle_far_memory_pop`, `find_arith_flags_dead_after`, interrupt-delay state bytes and `atomic_id_set` are not part of this model.
