# Verified models of the CoreMark port, the out-of-order memory system and the trace tools

This project models the parts of the repository whose correctness is least
visible from any one function, and proves what they promise on all inputs, all
runs and all reachable states.

* **CoreMark list** (`ListItems`, `MergeSort`, `ListBench`, `ListIndices`,
  `ListInit`, `ListProgram`): nodes are heap objects whose `next`, `info` and
  `data16` fields change in place. The bottom-up mergesort is verified with
  comparators that rewrite the data they compare. `core_bench_list` is specified
  completely up to the values the inner benchmarks return: the order the list
  ends in, the condition under which that is the order it had, and the checksum.
* **Memory ordering** (`DataMemory`, `ByteLanes`, `StoreBuffers`,
  `LoadStoreQueues`, `MemoryOrder`, `MemoryBackend`, `Serialization`): the Store
  Buffer and the load/store queue are ring-buffer classes with their byte-lane
  queries. The backend is a cycle system over the wiring equations, and an object
  built from the two rings follows it clock edge by clock edge. Every retired
  Load has the value in-order execution gives it, through flushes, recoveries
  and MMIO.
* **Kanata traces** (`KanataTrace`, `KanataModel`, `KanataLife`, `KanataRun`,
  `KanataStages`, `KanataPaths`, `KanataStats`, `KanataLegacy`,
  `KanataAgreement`, `KanataConverter`): the event converter as classes with
  dictionaries and mutable operation objects, proved to refine a machine on
  values. Every instruction has one well-formed life, it enters exactly the
  stages that the records of the snapshots call for, the statistics count those
  records, and the legacy converter gives the same fates.
* **State benchmark** (`StateScanner`, `StateBench`, `StateTallies`): the
  scanner's automaton and the regular languages of its states, the block
  generator and what a scan of its block finds, and the corrupt-and-restore
  passes.
* **CRC** (`Crc`): the bitwise loop as a linear shift register; burst errors of
  up to sixteen bits are always detected.
* **Matrix** (`Matrix`): dimension, layout, products under wrap-around, the
  extracted bit fields, what the clipped sum counts, and the restoration of A.

`Wrappers`, `Arithmetic`, `BitOps` and `CycleSets` hold what several of them
share. `dafny verify dfyconfig.toml` checks the whole project.

Where the code and its documentation disagree, the model follows the code:

* "The list is back to original state" (`coremark/core_list_join.c:156`). The
  list ends sorted by index, equal indices by the value the first sort used, and
  equal values by the order the finds left. It is back exactly when it was in
  that order. For a finder index up to 0, and for tied nodes whose value stands
  in their data word, this is a condition on the list before the call; distinct
  indices in order always satisfy it. `ListBench.TiedIndicesExchanged` is a list
  for which it fails at both finder indices the program uses.
* The indices of a fresh list are distinct exactly up to 322 cells and only if no
  mixed index falls among the sequence (`coremark/core_list_join.c:290-305`).
  With seed 7 and 31 cells two of them are 0.
* "No other instruction dispatches until they retire", says the repository's
  description of serializing instructions. That is not true of the cycle in
  which one dispatches: lane 1 does not look at lane 0
  (`rtl/backend/OoOBackend.sv:245-247`).
  `Serialization.CompanionDispatches` gives the exact condition.
* The clean-up loop of `finish` is meant to retire late instructions
  (`tools/kanata/tb_dump_v2_to_kanata.py:473-477`); whenever it has anything to
  do, it raises. `KanataConverter.Convert` gives the exact condition.
* `-87e+832` is listed as a scientific pattern (`coremark/core_state.c:120-123`)
  but the scanner rejects it at its exponent letter.
* The matrices may end up to ten bytes past the block when the block is not
  aligned (`coremark/core_matrix.c:191-217`).

## Model

| member | source | states |
|---|---|---|
| `ListItems.CalcFunc` | coremark/core_list_join.c:69-114 | afterwards the item is cached and the result is its low seven bits; a cached item, every upper byte and, for a cached item, the result block are unchanged; otherwise the computed value enters the checksum and is kept as the first state or matrix result |
| `ListItems.Compare` | coremark/core_list_join.c:120-142 | for each comparator the result is the difference of two keys that no later comparison can change, and both items are settled (cached, or regenerated from the upper byte) |
| `MergeSort.MergeRuns` | coremark/core_list_join.c:533-577 | two ordered runs become one, ordered and stable, holding the same nodes, with fewer comparator calls than nodes |
| `MergeSort.MergePass` | coremark/core_list_join.c:509-590 | a pass permutes the nodes, doubles the length of the ordered runs, and reports at most one merge exactly when one run is left |
| `MergeSort.Sort` | coremark/core_list_join.c:499-591 | a NULL-terminated permutation of the same nodes, sorted and stable by the final keys; with two or more nodes every node is in the log of comparator calls and is settled; the log has at most (n-1) ceil(log2 n) entries |
| `ListBench.Find` | coremark/core_list_join.c:434-449 | the first node that matches by index, or by low byte when the index is negative, or NULL when none does |
| `ListBench.Reverse` | coremark/core_list_join.c:464-476 | the same nodes in reverse order |
| `ListBench.MoveNext` | coremark/core_list_join.c:189-195 | the node behind the found one becomes the second of the list |
| `ListBench.Remove` | coremark/core_list_join.c:376-389 | the successor leaves the chain and the two nodes exchange their info |
| `ListBench.UndoRemove` | coremark/core_list_join.c:407-419 | the node returns behind the modified one and the infos are exchanged back |
| `ListBench.FindPhase` | coremark/core_list_join.c:173-203 | the k-th find looks for the finder index plus k, which wraps once behind 0x7fff, or for the low byte k modulo 256 when the index is negative; the list ends in the order these finds leave, a permutation; the sum is four per hit, minus one per miss, plus the bits of the nodes found; the search key left behind is the one after the last find |
| `ListBench.RemovePhase` | coremark/core_list_join.c:207-221 | removing and undoing leaves the same chain and the same infos; the checksum between is that of the list without its third node, from the first match on |
| `ListBench.FinalOrderIff` | coremark/core_list_join.c:205-224 | sorting stably by value and then stably by index is sorting by index, then value, then place |
| `ListBench.RestoredIff` | coremark/core_list_join.c:156 | the list comes back exactly when it was in the order by index, then value, then place after the finds |
| `ListBench.PlainTies` | coremark/core_list_join.c:205-206 | where tied words carry their own value, or no value is used, that order is determined by the list before the call |
| `ListBench.Bench` | coremark/core_list_join.c:151-235 | for every list of at least three nodes and every finder index: the infos are the same, every low byte equals its upper byte, the list ends in the order by index, value and place after the finds, and is the same chain exactly when it was in that order, so always for distinct indices in order; the checksum starts from the sum of the finds and covers the list without its third node and the sorted list |
| `ListBench.TiedIndicesExchanged` | coremark/core_list_join.c:156 | a three-node list with two equal indices whose order is lost at the finder indices 1 and -1 |
| `ListBench.Iterate` | coremark/core_main.c:63-71 | the benchmark any number of times, with any finder indices, leaves an ordered list with distinct indices as it was: links, infos and words |
| `ListIndices.DistinctIff` | coremark/core_list_join.c:288-308 | the indices of a fresh list are distinct exactly when it has at most 322 cells and no mixed index is 0 or one of the sequence |
| `ListIndices.HighSeedDistinct` | coremark/core_list_join.c:288-308 | for a seed with one of bits 11 to 13 set, such as this port's, the length alone decides |
| `ListInit.CellsFit` | coremark/core_list_join.c:254-262 | headers follow one another before the data items, all end inside the block, and the number of cells is the block size divided by the bytes of a cell, less two |
| `ListInit.InsertNew` | coremark/core_list_join.c:335-360 | a new cell is linked behind the insertion point, or nothing changes when either area is full |
| `ListInit.Init` | coremark/core_list_join.c:250-319 | exactly size-1 nodes, low byte equal to upper byte, sorted by index; head first and tail last exactly when size/5 is at most 0x8000 |
| `ListProgram.InitAndIterate` | coremark/core_main.c:52-73 | a list initialized with distinct indices and then benchmarked any number of times is the initial list, with every cell's item, word and index |
| `ByteLanes.OverlapIsSharedByte` | rtl/backend/execute/lsu/LoadStoreQueue.sv:78-147 | the mask comparison reports an overlap exactly when the accesses share a byte |
| `ByteLanes.ForwardIsLoad` | rtl/backend/execute/lsu/LoadStoreQueue.sv:78-147 | formatting the lanes of a covering Store gives what a Load would read after it |
| `DataMemory.LoadValueNumber` | rtl/backend/execute/lsu/LoadStoreQueue.sv:131-147 | the loaded word, as a two's-complement number, is the signed value of the byte or halfword read for LB and LH, the unsigned one for LBU and LHU, and the little-endian number of the four bytes for LW |
| `ByteLanes.FormatNumber` | rtl/backend/execute/lsu/LoadStoreQueue.sv:131-147 | the same of a forwarded word, from the lane of its address on |
| `StoreBuffers.StoreBuffer.Clock` | rtl/backend/execute/lsu/StoreBuffer.sv:157-245 | FIFO order: one drain from the front and one entry at the back; a full buffer accepts only while it drains |
| `StoreBuffers.StoreBuffer.Query` | rtl/backend/execute/lsu/StoreBuffer.sv:172-221 | a conflict exactly when some buffered Store writes a lane the Load reads; for an aligned Load that is a shared byte, and forwarding returns the value read after draining the buffer into any memory |
| `StoreBuffers.MergedStep` | rtl/backend/execute/lsu/StoreBuffer.sv:185-211 | scanning from the youngest entry, each lane keeps the byte of the youngest Store that writes it |
| `LoadStoreQueues.QueryCorrect` | rtl/backend/execute/lsu/LoadStoreQueue.sv:178-239 | an answer that lets a Load issue forwards what it would read after all older Stores, or no older Store shares a byte with it |
| `LoadStoreQueues.LoadStoreQueue.IssueQuery` | rtl/backend/execute/lsu/LoadStoreQueue.sv:178-239 | the scan of the ring is the query over the older entries in program order |
| `LoadStoreQueues.LoadStoreQueue.Recover` | rtl/backend/execute/lsu/LoadStoreQueue.sv:245-281 | recovery keeps exactly the entries not younger than the branch |
| `LoadStoreQueues.LoadStoreQueue.Wake` | rtl/backend/execute/lsu/LoadStoreQueue.sv:348-364 | every waiting Store whose data register is written takes its data, and nothing else changes |
| `LoadStoreQueues.LoadStoreQueue.AllocateLanes` | rtl/backend/execute/lsu/LoadStoreQueue.sv:149-159 | the dispatched entries go to the back in order, as many as there is room for |
| `MemoryOrder.IssuedLoadRight` | rtl/backend/OoOBackend.sv:531-578 | a Load that may issue receives, forwarded or from memory, the value of memory after all older Stores |
| `MemoryOrder.RetiredIsTaken` | rtl/backend/OoOBackend.sv:785-815 | a Store retires in exactly the cycles in which the buffer or the port takes it |
| `MemoryOrder.CycleConservesStores` | rtl/backend/OoOBackend.sv:785-815 | accepted writes followed by the buffer contents stay equal to the retired Stores, MMIO Stores included |
| `MemoryOrder.CycleKeepsQueue` | rtl/backend/OoOBackend.sv:531-578 | flush, recovery, retirement and dispatch keep every Load result in the queue right for its place in program order |
| `MemoryOrder.CycleKeepsInv` | rtl/backend/OoOBackend.sv:531-578 | every cycle keeps the whole invariant |
| `MemoryOrder.InOrderMemory` | rtl/backend/OoOBackend.sv:531-578 | in every run from reset, every retired Load has the value of memory after exactly the Stores before it, and the accepted writes are the retired Stores less the buffered ones |
| `MemoryOrder.InOrderNumbers` | rtl/backend/OoOBackend.sv:531-578 | in every run each retired Load, as a number, is the signed or unsigned value of the bytes of memory after exactly the Stores before it |
| `MemoryOrder.MmioLoadIsOldest` | rtl/backend/OoOBackend.sv:572-576 | an MMIO Load that executes is the oldest entry of the queue and finds the Store Buffer empty |
| `MemoryOrder.MmioWaitIsBounded` | rtl/backend/OoOBackend.sv:785-815 | a waiting MMIO Store cannot wait for more ready cycles than the buffer has Stores, and each drains one |
| `MemoryBackend.Backend.Evaluate` | rtl/backend/OoOBackend.sv:531-578 | the wires computed from the two rings are those of the cycle system |
| `MemoryBackend.Backend.Cycle` | rtl/backend/OoOBackend.sv:535-560 | one clock edge of the rings and the memory is one cycle of the system, and dispatch never exceeds the queue |
| `MemoryBackend.RunCycles` | rtl/backend/OoOBackend.sv:785-815 | any number of clock edges from reset is a run of the system, so every retired Load has its in-order value |
| `Serialization.SerializerExcludes` | rtl/backend/OoOBackend.sv:356-373 | from the next cycle on, without a flush, nothing joins it until the reorder buffer is empty |
| `Serialization.SerializerReleases` | rtl/backend/OoOBackend.sv:364-371 | once the reorder buffer is empty the flag is down in the next cycle, and lane 0 dispatches whenever its resources allow |
| `Serialization.CompanionDispatches` | rtl/backend/OoOBackend.sv:245-247 | in the dispatch cycle it is alone exactly when lane 1 is empty, a jump or branch, serializing, or short of a register |
| `Serialization.CompanionExample` | rtl/backend/OoOBackend.sv:245-247 | a FENCE and an ADD that dispatch together |
| `KanataTrace.Validate` | tools/kanata/tb_dump_v2_to_kanata.py:480-514 | the counters are the sets of initialized and retired sids and the numbers of S, E, commit and flush records |
| `KanataLife.FireKeeps` | tools/kanata/tb_dump_v2_to_kanata.py:285-298 | applying one deferred transition keeps the invariant of the remaining ones |
| `KanataRun.RecoverKeeps` | tools/kanata/tb_dump_v2_to_kanata.py:369-386 | a recovery leaves exactly the prefix of the window that ends at the branch, a global flush nothing, an inactive tag everything |
| `KanataRun.ProcessKeeps` | tools/kanata/tb_dump_v2_to_kanata.py:447-462 | every snapshot keeps the invariant; the window follows the snapshots alone; the deferred cycles are the old ones less this one, plus the next exactly when the snapshot defers something |
| `KanataRun.RunKeeps` | tools/kanata/tb_dump_v2_to_kanata.py:517-526 | in every run with increasing cycles: gids increase along the window, tags are distinct, every gid has a well-formed life, dispatched = committed + flushed + active |
| `KanataRun.StaleIff` | tools/kanata/tb_dump_v2_to_kanata.py:464-477 | a transition is left over exactly when some snapshot that defers one is followed by a gap |
| `KanataRun.GapExample` | tools/kanata/tb_dump_v2_to_kanata.py:464-477 | two snapshots with a gap for which `finish` raises |
| `KanataRun.FinishCloses` | tools/kanata/tb_dump_v2_to_kanata.py:464-477 | otherwise every gid has one closed life, stage begins equal stage ends, and the commits and flushes written are those counted |
| `KanataRun.ClosedValidates` | tools/kanata/tb_dump_v2_to_kanata.py:480-514 | the validator then finds each sid initialized and retired exactly once and nothing missing or extra |
| `KanataAgreement.RunAgrees` | tools/kanata/tb_dump_to_konata_legacy.py:607-759 | after every snapshot the two windows are the same instructions and tags, and the legacy rid counter is ahead by the queued retirements |
| `KanataAgreement.ConvertersAgree` | tools/kanata/tb_dump_to_konata_legacy.py:607-759 | at the end of every run without an error each instruction has the same fate, the same rid, iid = gid + 1, and the dispatch, commit, flush and orphan counts are equal |
| `KanataConverter.Converter.ApplyScheduled` | tools/kanata/tb_dump_v2_to_kanata.py:285-298 | the objects follow the model and no error is raised |
| `KanataConverter.Converter.FlushOps` | tools/kanata/tb_dump_v2_to_kanata.py:319-327 | flushing a slice while it is being removed follows the model |
| `KanataConverter.Converter.ProcessRecovery` | tools/kanata/tb_dump_v2_to_kanata.py:369-386 | the search for the branch finds the model's slot; the younger objects are flushed |
| `KanataConverter.Converter.ProcessDispatch` | tools/kanata/tb_dump_v2_to_kanata.py:414-445 | new objects enter all three containers; no gid is initialized twice |
| `KanataConverter.Converter.ProcessSnapshot` | tools/kanata/tb_dump_v2_to_kanata.py:447-462 | the objects follow the model, whose stages and statistics the following rows give; the only possible error is a cycle that does not increase; "unknown gid" and "initialized twice" are unreachable |
| `KanataStages.ProcessFollows` | tools/kanata/tb_dump_v2_to_kanata.py:447-462 | what a snapshot adds to the stages of an instruction in the trace depends only on its records, the window before it and the cycle a transition is due in |
| `KanataStages.StagesAre` | tools/kanata/tb_dump_v2_to_kanata.py:269-477 | in every finished trace the stages of every instruction, with the cycles they begin in, are those told from the snapshots |
| `KanataPaths.PathMeaning` | tools/kanata/tb_dump_v2_to_kanata.py:329-445 | an instruction begins in Rn0 or Rn1 by its dispatch lane; it enters LS exactly when it was dispatched with fu 2 and is issued, Ex0, Ex1 or ExF exactly when it was dispatched with another fu and is issued on that port, Wb0, Wb1, Cm0 or Cm1 exactly when a record of that lane names it, and Iq or Rob exactly when it outlives the dispatch or completion and the next snapshot, if any, has the next cycle; Iq follows Rn one cycle later, Rob follows Wb, nothing follows Cm, and the cycles never fall |
| `KanataStats.FinishStats` | tools/kanata/tb_dump_v2_to_kanata.py:329-477 | every counter is the number of records it stands for: those naming a live tag, those naming none, the instructions removed by recoveries, reused tags and the end of the run |
| `KanataConverter.Converter.FinishTrace` | tools/kanata/tb_dump_v2_to_kanata.py:464-477 | raises exactly when a deferred transition was missed |
| `KanataConverter.Convert` | tools/kanata/tb_dump_v2_to_kanata.py:517-526 | fails exactly when the cycles do not increase or a transition is missed; otherwise every life is closed, every instruction begins the stages that the snapshots tell, in the cycles they tell, the statistics are the counts over the snapshots, and the validator agrees with them, so strict mode depends on the error count alone |
| `StateScanner.Language` | coremark/core_state.c:216-330 | each state is reached exactly by the words of its language, Invalid exactly by the prefixes of no number |
| `StateScanner.Transition` | coremark/core_state.c:216-330 | the token has no separator, the state is its classification, the pointer ends after the comma, at the NUL or right behind the first byte that spoils the token, it advances on every non-NUL byte, and each counter grows by the departures from its state |
| `StateBench.InitState` | coremark/core_state.c:139-195 | the block is the longest sequence of patterns and commas that fits, the k-th chosen by the seed plus k in 16 bits, then NULs, at least two when the size is two or more |
| `StateTallies.PatternKinds` | coremark/core_state.c:160-183 | a pattern is an integer exactly for the low three bits 0 to 2 of its seed, a float for 3 and 4, scientific for 5 and 6, and invalid for 7 and for the scientific pattern that bits 3 and 4 select with 2 |
| `StateTallies.PatternChosen` | coremark/core_state.c:160-183 | seeds of one kind select the same pattern exactly when they agree in bits 3 and 4 |
| `StateBench.SciPatternKinds` | coremark/core_state.c:120-123 | three of the four scientific patterns are numbers in scientific notation, the third is invalid |
| `StateBench.Corrupt` | coremark/core_state.c:77-83 | exactly the bytes at multiples of the step that are not commas are changed |
| `StateBench.RestoredIff` | coremark/core_state.c:97-103 | the second pass with the same seed byte restores the block exactly when no sampled byte turned into a comma |
| `StateBench.LostDigit` | coremark/core_state.c:97-103 | a block and a seed byte for which it does not |
| `StateBench.FilledRestored` | coremark/core_state.c:77-103 | a generated block is restored at every size and step by every seed byte that turns no pattern byte into a comma |
| `StateBench.ScanAll` | coremark/core_state.c:65-75 | the scan ends at the first NUL, the pieces it consumed spell the text before it, and both count arrays are the sums over the pieces |
| `StateTallies.CutOnce` | coremark/core_state.c:65-75 | a text is cut into tokens in one way only |
| `StateTallies.FirstScan` | coremark/core_state.c:65-75 | the first scan of a generated block finds exactly the tokens of its patterns, one pattern after the other, and every final count is the sum of a fixed table over the seeds used |
| `StateBench.BenchState` | coremark/core_state.c:45-111 | with two NULs at the end and a step of two or more both scans stop inside the block, the block ends corrupted by both seeds in turn, and the checksum covers the counts of both scans, each modulo 2^32 |
| `StateBench.BenchRepeatedly` | coremark/core_list_join.c:88-96 | generating and then benchmarking any number of times, with any periods, leaves the generated block |
| `Crc.Crcu8` | coremark/core_util.c:164-188 | the eight shift-and-turn rounds are eight bit steps of the register |
| `Crc.Crcu32` | coremark/core_util.c:196-202 | the little-endian bytes in order |
| `Crc.CrcBitsLinear` | coremark/core_util.c:164-188 | the checksum is linear in message and register together |
| `Crc.CrcBitsInjective` | coremark/core_util.c:164-188 | for a fixed message the register is never merged |
| `Crc.FeedIsShift` | coremark/core_util.c:164-188 | feeding data equals shifting zeros into the register xor the data |
| `Crc.CrcBytesIsCrcBits` | coremark/core_util.c:164-207 | the byte fold is the bit fold of the message |
| `Crc.BurstDetected` | coremark/core_util.c:164-207 | two messages that differ only within sixteen consecutive bits never share a checksum |
| `Crc.AdjacentBytesDetected` | coremark/core_util.c:164-207 | nor do two that differ only in two adjacent bytes |
| `Crc.SelfChecksumIsZero` | coremark/core_util.c:189-195 | feeding a register its own value clears it |
| `Matrix.Dimension` | coremark/core_matrix.c:188-196 | the largest N with 8 N^2 below the block size, without 32-bit overflow up to 2^31 |
| `Matrix.LayoutDisjoint` | coremark/core_matrix.c:197-217 | A, B and C are aligned, disjoint, and end before the block size plus eleven |
| `Matrix.LayoutFitsIff` | coremark/core_matrix.c:197-217 | C ends inside the block exactly when the alignment gaps fit |
| `Matrix.InitMatrix` | coremark/core_matrix.c:200-213 | every entry of B is the seed of its cell plus its position in 16 bits, and every entry of A the low byte of that entry plus its position |
| `Matrix.MulMatrix` | coremark/core_matrix.c:321-336 | every cell is the dot product of its row and column, modulo 2^32 |
| `Matrix.MulBitExtract` | coremark/core_matrix.c:343-359 | every cell is the exact sum over the products of the number in bits 2 to 5 times the number in bits 5 to 11 of the 32-bit two's-complement pattern, negative products included, and lies in 0..1905 N |
| `Matrix.SumMeaning` | coremark/core_matrix.c:237-262 | a cell resets the running total exactly when the total since the last reset passes the clip value, and the sum is ten per reset and one per other rise, in 16 bits |
| `Matrix.MatrixTest` | coremark/core_matrix.c:129-162 | A is restored for every constant, C holds the sums of bit fields, the checksum covers the four sums, and the last of them is 10 N^2 independently of the data |

## Supporting results

Steps towards the results above, single equations of the wiring, and evaluations of constants:

* lists: `MergeSort.StepAlong`, `TakesP`, `MergingStep` and `RunsAppend` for one merge;
  `ListItems.SettledIsFinal`, `EvolvedTransitive` and `EvolvedKeepsHigh` for what comparisons may change;
  `ListBench.OrderedUnique`, `DistinctInOrder` and `CrcWalk`; `ListItems.WordFields` and `RewrittenFields`,
  `ListInit.ItemDataFields` and `TwiceByte` for the fields of a data word; `MergeSort.CeilLog2Least`;
  `ListInit.EndsStay` and `EndsMove`; `ListIndices.PortListDistinct` and `TiedFreshList`, which are about
  particular seeds
* memory: `DataMemory.StoreThenLoad`; `ByteLanes.CoverIsContainment`; `MemoryOrder.CommitPassOk`, `PassesAgree` and `CarriedMemory`;
  `PortIsExclusive` (never two requesters), `LoadTakenIffReady` and `FullBufferDrains` for the port;
  `MemoryOrder.WokenIsReady`, `ExecutedStoreKnown` and `HeadStoreOffered` for single cycles;
  `Serialization.StateStaysOk`, `SerializerEntersEmpty` and `NothingPassesSerializer` for dispatch
* traces: the steps of `KanataLife`, `KanataStages`, `KanataPaths`, `KanataStats` and `KanataAgreement`;
  `KanataTrace.LifeCounts`, `LifeSets` and `FateOfLife`; `KanataRun.ConsecutiveNeverStale`
* state, CRC and matrix: `StateBench.NulRemains`, `PortSeedsHarmless` and the classification of the patterns;
  `StateTallies.Symbols` and the pattern texts, which give the bytes as characters; `Crc.LittleEndianSum`,
  `WordNumber` and `HalfNumber` for the bytes of a number; `Crc.UnstepInvertsStep`; `Matrix.WrapCongruent`,
  `RemMeaning`; `Matrix.AddThenSubtract`, `SumOfNonNegative` and `LayoutOverflows`

## Left out

- ListBench.Bench: the values of the sort by data are fixed only where they stand in the data words; elsewhere they are what the inner benchmarks return, which is arbitrary here.
- ListItems.CalcFunc: the inner benchmarks return any 16-bit value and touch no list memory; the calls themselves are not connected to `StateBench` and `Matrix`.
- ListInit.Init: the two memory areas are sequences of distinct cells rather than one byte array; `ListInit.CellsFit` gives the byte bounds.
- StoreBuffers.StoreBuffer.Clock: the three arrays of the ring are one array of records.
- LoadStoreQueues.LoadStoreQueue.AllocateLanes: entries arrive with the rule for the zero register applied, which makes the data of a Store from register 0 ready at once.
- LoadStoreQueues.LoadStoreQueue.Recover: the address, data and wake-up ports of the same cycle are separate methods, composed by `MemoryBackend.Backend.Cycle`.
- MemoryOrder.InOrderMemory: the D-cache is a flat memory updated and read in the order of accepted requests; reorder-buffer lanes, issue candidates and recovery points are inputs constrained to mirror the queue.
- MemoryOrder.IssuedLoadRight: misaligned accesses take the exception path and carry no value; decode and address generation are inputs.
- KanataConverter.Converter.ProcessSnapshot: text formatting, disassembly, the header lines and the parsing of records (with its `KeyError` and `ValueError`) are not part of this model; a record is present with its integers or absent.
- KanataConverter.Converter.FlushOps: list membership compares objects by identity; the source's field-wise equality is the same because gids are distinct.
- KanataAgreement.ConvertersAgree: the legacy converter is modelled on values, without its `closed` flag (an entry leaves the window in the step that closes it) and without update in place.
- StateBench.InitState: sizes for which `total + next + 1` exceeds 32 bits, and size 0, which wraps and writes past any block, are not covered.
- StateBench.BenchState: counts are unbounded; the checksum takes them modulo 2^32.
- Matrix.MulMatrix: signed 32-bit overflow, undefined in C, is taken to wrap.
- The V1 path of the legacy converter (`advance_frontend`, `reconcile_frontend`, `retire_by_pc`): its matching by program counter is heuristic and promises less.
- Branch prediction, rename, issue queue, caches and the reorder buffer: other machines, entering only through the inputs of `MemoryOrder` and `Serialization`.
- The rest of `core_main.c`, the port's timing, UART and MMIO code, the simulation harness, build and image scripts, performance counters and debug outputs: reporting and plumbing.
