# ramulator-pim core in Dafny

A model of the timing and parsing logic of ramulator-pim. It covers the
zsim side that produces memory traces and the ramulator side that replays
them, plus the command line and memory-specification reader of DRAMPower.
Each source file that updates state in place becomes a class (or a method
over arrays and fields) with `modifies` clauses. Each pure mapping becomes
a function. Proved properties are stated in `ensures` clauses and lemmas.

Modules:

- `OooCore` (`ooo_core.dfy`): zsim's out-of-order core, `OOOCore::bbl` step by step.
  - Each micro-op goes through the decode stall, the 4-wide issue throttle, the 3-port register-read throttle and dispatch, then a per-kind commit rule (general, load, store, store-address, fence).
  - Along the way it updates the register scoreboard (`array`), the store-forwarding table (`array`, indexed by `(addr >> 2) & (FWD_ENTRIES - 1)`), the two store watermarks, the retirement sequences of the ROB and the load/store queues, and the counters.
  - Per block it runs the wrong-path fetches after a misprediction and the instruction fetch of the next block.
  - Also modelled: `load`, `store`, `predFalseMemOp`, `branch`, `contextSwitch`, `advance`, and how the constructor reads the core index from the name.
  - The trackers, L1 caches and branch predictor are collaborators whose code is not part of this model. Their answers come in as a `Collaborators` value, and every property holds for every such value.
  - Each tracker answer only moves a cycle forward; each cache latency is a `nat` added to the cycle.
- `Prefetcher` (`prefetcher.dfy`): zsim's stream prefetcher and its AMPM prefetcher.
  - Stream prefetcher: a 16-entry page table with tags, timestamps, strides, saturating confidence, and per-line `valid`/`times`.
  - AMPM prefetcher: a table of pages with `access_map`/`pf_map` bitmaps and LRU replacement.
  - Both have an `access` that updates tables in place, and an `invalidate`.
  - The reference definitions are the functions `StreamAccess` and `AmpmAccess`. `StreamPrefetcher.Access` and `AmpmPrefetcher.Access` are each proved to produce exactly that function's table, response and prefetch requests.
  - The parent cache is an oracle of response cycles.
- `MemCtrls` and `MemReqs` (`mem_ctrls.dfy`, `memreq.dfy`): zsim's fixed-latency memory, the memory that also writes an offloading trace (with its instruction accounting), and the M/D/1 queueing memory. The M/D/1 latency update is modelled over `real`.
- `RamulatorCpu` (`processor.dfy`): ramulator's trace-replay CPU.
  - `SqueduleQueue`.
  - The 128-entry circular `Window`, kept in arrays. Its contents are specified as the sequence `Contents()` read from `tail`.
  - `Core::tick_outOrder`, `Core::tick_inOrder` and `Core::receive`. Trace lines and `send` come in as parameters.
  - The in-order tick keeps two behaviours of the source as they are. An INSTRUCTION sets `lock_core` (Processor.cpp:683) and increments `inFlightMemoryAccess` (682), and nothing ever clears or decrements either, so the core does nothing on every later tick. A READ is counted but never sent (648-650), because the READ branch after it (652-667) cannot be reached.
- `TraceParsers` (`trace.dfy`): `split_str` and the line logic of `get_zsim_request`, `get_pisa_request` (including its per-processor `instructions` array) and `get_unfiltered_request`. Each reader is given the line as a string.
- `RamulatorConfig` (`config.dfy`): the option map of `Config.h`.
  - Modelled: `operator[]`, `contains` (the predicate `HasOption`), `add`, `set`, `set_trace_format`, and the derived switches and limits.
- `DramPowerCli` (`drampower.dfy`): `main` of DRAMPower up to the power analysis. This is the argument loop, the range and consistency checks, and the `min_size`/`src_size`/`burst` arithmetic. Every `return error()` is a `Fail`.
- `MemSpecParsing` (`memspec_parser.dfy`): the `startElement`/`endElement` handlers of `MemSpecParser`, as a state machine over element events.
- `CString` and `Common` (`cstring.dfy`, `common.dfy`): shared definitions.
  - `CString` holds the C and C++ library conversions the sources call (`atoi`, `std::stoi`, `std::stoul` in bases 0, 10 and 16, `find`, `find_first_not_of`) and their decimal round trips.
  - `Common` holds `Option`/`Result`, the explicit `uint32_t`/`uint64_t` wrap-arounds, and C's truncating division.

Integers are unbounded. Where the source depends on a fixed width, the
model writes the conversion out:
- the `uint32_t` cycle differences in `OOOCore`;
- the `uint32_t` stride arithmetic of the stream prefetcher;
- the 32-bit phase-cycle count of `MD1Memory`;
- the `uint64_t` response cycles `req.cycle + latency` of the three memories, whose wrap-around fails the `respCycle > req.cycle` assertion of the fixed-latency ones (the latency is taken as a 64-bit value, since `mem_ctrls.h`, which declares it, is not part of this model);
- the `unsigned` casts in DRAMPower and the 64-bit range of `stoul`.

A failed `assert`, a `panic`, an uncaught exception and undefined behaviour
the source guards against all become the `Fail` case of `Result`.

## Model

| member | source | states |
|---|---|---|
| MemReqs.GrantedState | zsim-ramulator/src/mem_ctrls.cpp:32-44 | writebacks (`PUTS`, `PUTX`) leave the line invalid, `GETX` grants M, `GETS` grants S under `NOEXCL` and E otherwise; no state for any other type (the `panic`) |
| MemCtrls.SimpleAccess | zsim-ramulator/src/mem_ctrls.cpp:31-58 | succeeds exactly for a known request type, a positive latency and a request cycle plus latency that stays below 2^64 (the `respCycle > req.cycle` assertion on the `uint64_t` sum); the response carries the granted state and is due `latency` cycles after the request |
| Common.Wrap64Past | zsim-ramulator/src/mem_ctrls.cpp:46-47 | a 64-bit latency added in `uint64_t` lands strictly after the request cycle exactly when it is positive and the sum does not wrap around |
| MemCtrls.DemandBump | zsim-ramulator/src/mem_ctrls.cpp:75 | a traced access adds one memory instruction to subtract exactly when it is neither `PREFETCH` nor `PREFETCH_TRACE` |
| MemCtrls.TraceKind | zsim-ramulator/src/mem_ctrls.cpp:84-108 | a trace line is marked `P` exactly for prefetches (84, 107), `L` exactly for demand requests other than GETX (85) and `S` exactly for demand GETX requests (108) |
| MemCtrls.Settle | zsim-ramulator/src/mem_ctrls.cpp:76-83 | settling pending instructions against memory instructions to subtract leaves both non-negative, at least one of them zero, and their difference unchanged |
| MemCtrls.EmittedAppend | zsim-ramulator/src/mem_ctrls.cpp:84-85 | one more trace line adds its instruction count to the count reported for its own core only |
| MemCtrls.MemoryTraces.constructor | zsim-ramulator/src/mem_ctrls.cpp:60-61 | per-core counters for cores 0 to `MAX_CORES` start at 0, tracing off, empty trace; the accounting invariant holds |
| MemCtrls.MemoryTraces.Account | zsim-ramulator/src/mem_ctrls.cpp:72-111 | a traced access settles the core's pending count, writes one trace line with the settled count, resets the pending count; every reported instruction stays either in the trace, pending, or cancelled by a traced demand access |
| MemCtrls.MemoryTraces.Access | zsim-ramulator/src/mem_ctrls.cpp:60-130 | fails for a core beyond `MAX_CORES`, an unknown type, a zero latency or a `uint64_t` response cycle that wraps around (the assertion at 118-119); otherwise answers like the fixed-latency memory; traces only non-`IFETCH` reads and writes while tracing is on and changes nothing else |
| MemCtrls.MemoryTraces.Offload | zsim-ramulator/src/mem_ctrls.cpp:134-152 | `OFFLOADING` sets the trace switch; `INSTR_COUNT` credits the instructions to the core and the total and records the thread; anything else changes nothing; returns 0. An `INSTR_COUNT` for a core past `MAX_CORES`, which the source indexes without a check, fails and changes nothing |
| MemCtrls.PeakRequestRate | zsim-ramulator/src/mem_ctrls.cpp:159-161 | the assertion fails exactly when the bandwidth is zero; a zero clock rate or request size (with a non-zero bandwidth) gives an infinite rate; otherwise the rate is positive and rate × megacycles × request size equals the bandwidth |
| MemCtrls.PhaseLoad | zsim-ramulator/src/mem_ctrls.cpp:176-185 | the load is the smoothed accesses per cycle over the peak request rate, clamped to at most 0.95 and never above the unclamped value; it is 0 against an infinite peak rate |
| MemCtrls.LoadedLatency | zsim-ramulator/src/mem_ctrls.cpp:187-188 | the truncated M/D/1 latency is at least the zero-load latency, equals it at zero load and is at most 10.5 times it |
| MemCtrls.ScaleBounds | zsim-ramulator/src/mem_ctrls.cpp:187-188 | scaling the zero-load latency by a multiplier between 1 and 10.5 keeps it between 1 and 10.5 times the zero-load latency |
| MemCtrls.NonNegativeProduct | zsim-ramulator/src/mem_ctrls.cpp:187-188 | the product of two non-negative reals is non-negative (a step of `ScaleBounds`) |
| MemCtrls.TenAndHalfFloor | zsim-ramulator/src/mem_ctrls.cpp:188 | truncating 10.5 times a whole latency gives `(21 * zeroLoadLatency) / 2` cycles |
| MemCtrls.FloorMonotone | zsim-ramulator/src/mem_ctrls.cpp:188 | the truncating cast to `uint32_t` never reverses the order of two non-negative latencies |
| MemCtrls.MultiplierBounds | zsim-ramulator/src/mem_ctrls.cpp:187 | the multiplier `1 + 0.5 load/(1 - load)` lies between 1 and 10.5 for a load up to 0.95, and is 1 at zero load |
| MemCtrls.LoadedLatencyMonotone | zsim-ramulator/src/mem_ctrls.cpp:181-188 | a higher load never gives a lower latency |
| MemCtrls.MD1Memory.constructor | zsim-ramulator/src/mem_ctrls.cpp:154-170 | past the assertion, the peak rate is the one `PeakRequestRate` computes; phase 0, no accesses, latency at its zero-load value |
| MemCtrls.MD1Memory.Create | zsim-ramulator/src/mem_ctrls.cpp:154-170 | construction fails exactly when the bandwidth is zero (the assertion); otherwise it yields a fresh memory with the computed peak rate, at phase 0 with its zero-load latency |
| MemCtrls.MD1Memory.UpdateLatency | zsim-ramulator/src/mem_ctrls.cpp:172-198 | phases covering fewer than 10000 cycles (as a 32-bit count) change nothing; otherwise the history is halved and added to the current accesses, the latency is the M/D/1 latency of the clamped load, and a new phase starts |
| MemCtrls.MD1Memory.Access | zsim-ramulator/src/mem_ctrls.cpp:200-237 | the latency is first brought up to date with the phase counter; `PUTX`, `GETS` and `GETX` count as accesses and are answered after the current latency; `PUTS` is answered at once and not counted; the response cycle is the `uint64_t` sum, wrapped; unknown types fail |
| OooCore.FwdIndex | zsim-ramulator/src/ooo_core.cpp:555 | the forwarding slot `(addr >> 2) & (FWD_ENTRIES-1)` is always a valid index into the table |
| OooCore.WrongPathCount | zsim-ramulator/src/ooo_core.cpp:711-732 | the wrong-path loop issues at least one fetch when it runs at all and never more than its `5*64/lineSize` bound |
| OooCore.LineSeqAt | zsim-ramulator/src/ooo_core.cpp:711-712 | the j-th line fetched is `base + lineSize*j`, before and after 64-bit wrap-around |
| OooCore.CountMonotone | zsim-ramulator/src/ooo_core.cpp:507-572 | the number of loads and of stores before a position never decreases along the block |
| OooCore.AfterLastDash | zsim-ramulator/src/ooo_core.cpp:179-188 | the text the core index is read from is a suffix of the name and holds no `-` |
| OooCore.FindDash | zsim-ramulator/src/ooo_core.cpp:182-186 | `name.find('-', from)` returns the first dash at or after `from`, or nothing when there is none |
| OooCore.AfterLastDashFrom | zsim-ramulator/src/ooo_core.cpp:181-188 | the loop's final `start` (after a dash with no dash behind it) marks exactly the suffix after the last dash |
| OooCore.CoreIdxFromName | zsim-ramulator/src/ooo_core.cpp:179-188 | the dash-scanning loop yields `atoi` of the text after the last `-` |
| OooCore.CoreIdxOfNumberedName | zsim-ramulator/src/ooo_core.cpp:179-188 | a core named `prefix-n` gets index `n`, whatever the prefix holds |
| OooCore.OOOCore.constructor | zsim-ramulator/src/ooo_core.cpp:155-227 | line size `1 << lineBits`, empty scoreboard and forwarding table, zeroed counters and watermarks, decode cycle at the decode stage, core index from the name |
| OooCore.OOOCore.RecordLoad | zsim-ramulator/src/ooo_core.cpp:291-295 | `load` appends the address to the block's load addresses and changes nothing else |
| OooCore.OOOCore.RecordStore | zsim-ramulator/src/ooo_core.cpp:297-301 | `store` appends the address to the block's store addresses |
| OooCore.OOOCore.PredFalseMemOp | zsim-ramulator/src/ooo_core.cpp:305-310 | a predicated-off memory op is recorded as a load of address `-1` |
| OooCore.OOOCore.Branch | zsim-ramulator/src/ooo_core.cpp:312-317 | the branch's pc, outcome and both next-pc targets are recorded |
| OooCore.OOOCore.ContextSwitch | zsim-ramulator/src/ooo_core.cpp:274-283 | switching out (`gid == -1`) drops the buffered block; any other gid keeps it |
| OooCore.OOOCore.Advance | zsim-ramulator/src/ooo_core.cpp:807-818 | the decode cycle moves by the same distance as the current cycle, which reaches the target; the per-cycle counters restart |
| OooCore.OOOCore.AdvancePos | zsim-ramulator/src/ooo_core.cpp:439 | one step of the issue window advances the current cycle by one |
| OooCore.OOOCore.DecodeStall | zsim-ramulator/src/ooo_core.cpp:429-441 | decode cycle is the later of the decode offset and the decode queue; a decode ahead of issue skips the window forward by the 32-bit difference and restarts the counters, otherwise nothing moves |
| OooCore.OOOCore.IssueThrottle | zsim-ramulator/src/ooo_core.cpp:445-454 | at most four micro-ops issue per cycle: a full cycle moves to the next with the counters restarted |
| OooCore.OOOCore.ReadOperands | zsim-ramulator/src/ooo_core.cpp:458-470 | register 0 becomes ready now, each source not yet ready this cycle takes a read port, and a fourth port moves issue to the next cycle with the excess carried over |
| OooCore.OOOCore.ExecuteLoad | zsim-ramulator/src/ooo_core.cpp:507-569 | a load dispatches after the load queue and after every older store address, pays the L1d latency unless predicated off, waits for a forwarding store to the same address, and retires from the load queue at its commit cycle |
| OooCore.OOOCore.ExecuteStore | zsim-ramulator/src/ooo_core.cpp:572-621 | a store dispatches like a load, commits after the L1d access, writes its forwarding slot and raises the store-commit watermark |
| OooCore.OOOCore.Execute | zsim-ramulator/src/ooo_core.cpp:500-637 | the per-kind commit rule: general, store-address and fence ops take their latency; store-address and fence ops raise the store-address watermark; only stores touch the forwarding table |
| OooCore.OOOCore.IssueAndDispatch | zsim-ramulator/src/ooo_core.cpp:425-488 | the read cycle is at or after the decode cycle, issue does not go back in time, and dispatch waits for both sources, the reorder buffer and the issue-to-dispatch distance |
| OooCore.OOOCore.SimulateUop | zsim-ramulator/src/ooo_core.cpp:425-646 | one micro-op end to end: dispatch after its sources and older store addresses, commit after dispatch, retirement from the reorder buffer and the queues, its destinations ready at commit and every other register unchanged |
| OooCore.OOOCore.Step | zsim-ramulator/src/ooo_core.cpp:425-646 | one micro-op, seen by the block loop: it is timely (`UopTimely`), a load or store dispatches after the older store addresses, it retires from the reorder buffer and its queue at its commit cycle, a store writes its address and commit cycle to its forwarding slot and nothing else touches the table, and the scoreboard becomes the old one with register 0 at the read cycle and both destinations at the commit cycle |
| OooCore.OOOCore.NextAddr | zsim-ramulator/src/ooo_core.cpp:519-588 | the j-th load of a block gets the j-th recorded load address and the j-th store the j-th recorded store address, and each index moves past the address it handed out |
| OooCore.OOOCore.BlockStep | zsim-ramulator/src/ooo_core.cpp:425-646 | one iteration of the block loop advances the loop invariant `InBlock` by exactly the micro-op it simulates |
| OooCore.OOOCore.BlockBegins | zsim-ramulator/src/ooo_core.cpp:415-420 | before the first micro-op the loop invariant holds against the state the block starts from |
| OooCore.OOOCore.BlockDone | zsim-ramulator/src/ooo_core.cpp:415-650 | the loop invariant over all micro-ops, with the last commit cycle, is `BlockSimulated` |
| OooCore.AfterExtend | zsim-ramulator/src/ooo_core.cpp:425-646 | the retirement sequences, forwarding table and scoreboard after the first n micro-ops depend only on their own timings |
| OooCore.AfterStep | zsim-ramulator/src/ooo_core.cpp:425-646 | each of those advances by exactly one micro-op when its timing is appended |
| OooCore.BlockTimelyExtend | zsim-ramulator/src/ooo_core.cpp:425-646 | a timely micro-op appended to a timely prefix keeps the block timely |
| OooCore.FwdAfter | zsim-ramulator/src/ooo_core.cpp:584-616 | the stores of a block, in order, write their address and commit cycle to the slot of their address; the table keeps its size |
| OooCore.RegsAfter | zsim-ramulator/src/ooo_core.cpp:425-646 | each micro-op of a block, in order, marks register 0 with its read cycle and its destinations with its commit cycle; the scoreboard keeps its size |
| OooCore.OOOCore.RunUops | zsim-ramulator/src/ooo_core.cpp:415-650 | the uop loop leaves `BlockSimulated`: one timing per micro-op, each timely (`UopTimely`), with every load and store dispatched after the store addresses committed before the block; the block's last commit is the last micro-op's; the reorder buffer retires every commit cycle in program order, and the load and store queues those of their kind; the forwarding table is the old one after each store wrote its address (the recorded addresses, taken in order) and commit cycle; the scoreboard is the old one after each micro-op's register writes; the decode cycle, the cycle and the store watermarks never go back |
| OooCore.OOOCore.WrongPathFetch | zsim-ramulator/src/ooo_core.cpp:709-732 | the wrong-path fetch reads consecutive lines from the path not taken and stops after the first response later than the block's last commit, within `5*64/lineSize` lines |
| OooCore.OOOCore.FetchBbl | zsim-ramulator/src/ooo_core.cpp:745-766 | the new block's fetch reads the fewest consecutive lines that cover its bytes and adds up their latencies |
| OooCore.OOOCore.FrontEnd | zsim-ramulator/src/ooo_core.cpp:677-777 | a branch mispredicts iff one was recorded and the predictor was wrong; a misprediction counts and restarts fetch at the last commit; the branch is cleared; decode waits for fetch and skips at least one cycle |
| OooCore.OOOCore.CountBlock | zsim-ramulator/src/ooo_core.cpp:652-655 | instructions, micro-ops, blocks and approximate instructions advance by the block's counts |
| OooCore.OOOCore.ClearAddrs | zsim-ramulator/src/ooo_core.cpp:665 | the recorded load and store addresses are dropped |
| OooCore.OOOCore.BufferFirst | zsim-ramulator/src/ooo_core.cpp:391-397 | the first block is buffered, the recorded addresses dropped, and nothing is simulated |
| OooCore.OOOCore.SimulatePrev | zsim-ramulator/src/ooo_core.cpp:414-665 | a later block: the one buffered before is simulated as `SimulateBuffered` states, the new one buffered and the addresses dropped |
| OooCore.OOOCore.SimulateBuffered | zsim-ramulator/src/ooo_core.cpp:415-777 | the buffered block is simulated as `RunUops` states (`BlockSimulated` over the report's timings, last commit and block decode cycle); the counters advance by the block's counts; a branch mispredicts iff one was recorded and the predictor was wrong, and counts; the fetch of the next block (`NextFetched`) restarts at the last commit after a misprediction and otherwise two cycles before the block's decode cycle, reads the consecutive lines covering its bytes and ends after their summed latencies; the decode cycle becomes the later of one past the block's and the fetch end plus the fetch-to-decode distance |
| OooCore.OOOCore.Bbl | zsim-ramulator/src/ooo_core.cpp:390-778 | the new block is always buffered with empty address lists; the first block of a thread leaves every timing field, counter, retirement sequence, the scoreboard and the forwarding table untouched; otherwise the block buffered before it is simulated with exactly the guarantees of `SimulateBuffered`, against the addresses recorded for it |
| Prefetcher.PrefetchReq | zsim-ramulator/src/prefetcher.cpp:155 | a prefetch for line t stays in the demand's page, lands on offset t, and is a GETS marked as a prefetch, issued at the demand's cycle for the same core |
| Prefetcher.PrefetchReqsAt | zsim-ramulator/src/prefetcher.cpp:155-166 | the j-th request issued is the prefetch of the j-th target line |
| Prefetcher.ConsumePrefetch | zsim-ramulator/src/prefetcher.cpp:127-137 | consuming a prefetched offset keeps the entry well formed |
| Prefetcher.IssuePrefetches | zsim-ramulator/src/prefetcher.cpp:145-172 | issuing prefetches keeps the entry well formed |
| Prefetcher.Train | zsim-ramulator/src/prefetcher.cpp:139-192 | training on a hit keeps the entry well formed |
| Prefetcher.StreamHit | zsim-ramulator/src/prefetcher.cpp:120-193 | the whole hit update keeps the entry well formed |
| Prefetcher.StreamHitResponse | zsim-ramulator/src/prefetcher.cpp:128-137 | a hit on a prefetched offset answers at the later of the prefetch and the demand response and moves the entry's last cycle up to it; the positions shift to the new offset |
| Prefetcher.StreamHitValid | zsim-ramulator/src/prefetcher.cpp:131 | after a hit the valid offsets are those valid before except the one hit, plus the ones just prefetched |
| Prefetcher.IssuePrefetchesFacts | zsim-ramulator/src/prefetcher.cpp:145-172 | at most two prefetches, the first at the planned position and not already valid, the second only for a short prefetch at depth below 8 one stride further on; each is marked valid with its issue and response cycles; nothing changes when none is issued |
| Prefetcher.StreamHitTargets | zsim-ramulator/src/prefetcher.cpp:142-172 | prefetches are issued only when the stride repeats and the raised confidence predicts; a second one only after a short prefetch hit |
| Prefetcher.StreamHitTraining | zsim-ramulator/src/prefetcher.cpp:142-189 | a stride mismatch lowers confidence, issues nothing, resets the last prefetch position and switches stride exactly when confidence lapsed and the new stride repeated the previous one |
| Prefetcher.SecondPrefetchAddress | zsim-ramulator/src/prefetcher.cpp:162-163 | adding the stride to the first prefetch's 64-bit line address gives the second prefetch's line |
| Prefetcher.LastMatch | zsim-ramulator/src/prefetcher.cpp:86-91 | the branch-free tag scan finds the last matching tag, or none when no tag matches |
| Prefetcher.Victim | zsim-ramulator/src/prefetcher.cpp:96-110 | the replacement candidate is the first entry of least timestamp among those not warmed after the request cycle + 500, and none when every such timestamp is the `-1` sentinel |
| Prefetcher.StreamNonGets | zsim-ramulator/src/prefetcher.cpp:77 | requests that are not GETS go to the parent and leave the table untouched |
| Prefetcher.StreamAccessOk | zsim-ramulator/src/prefetcher.cpp:72-197 | every access keeps the table's shape, with no timestamp above the counter |
| Prefetcher.StreamMiss | zsim-ramulator/src/prefetcher.cpp:95-119 | on a page miss nothing is prefetched; with no candidate the table is unchanged, otherwise only the victim changes: it is allocated for the page at the request's offset and takes the next timestamp |
| Prefetcher.StreamHitEntry | zsim-ramulator/src/prefetcher.cpp:120-193 | on a page hit only the hit entry changes, it takes the next timestamp, and every request issued is a GETS prefetch in the same page |
| Prefetcher.StreamPrefetcher.FindTag | zsim-ramulator/src/prefetcher.cpp:86-91 | the in-place tag loop computes the last matching slot |
| Prefetcher.StreamPrefetcher.FindVictim | zsim-ramulator/src/prefetcher.cpp:96-110 | the in-place LRU loop computes the replacement candidate |
| Prefetcher.StreamPrefetcher.Access | zsim-ramulator/src/prefetcher.cpp:72-197 | `access` updates the arrays and returns the response and the prefetches exactly as the table-level model of an access says |
| Prefetcher.FirstPage | zsim-ramulator/src/prefetcher.cpp:276-283 | the page-hit loop finds the first page with the number, or none |
| Prefetcher.Oldest | zsim-ramulator/src/prefetcher.cpp:288-297 | the replacement is the first page of least `lru` |
| Prefetcher.PrefetchScan | zsim-ramulator/src/prefetcher.cpp:313-381 | a scan rewrites a prefetch map of 64 lines |
| Prefetcher.PrefetchScanPrefix | zsim-ramulator/src/prefetcher.cpp:313-347 | a scan only appends to the prefetches already issued |
| Prefetcher.PrefetchScanCount | zsim-ramulator/src/prefetcher.cpp:323 | a scan issues at most `PREFETCH_DEGREE` prefetches in its direction |
| Prefetcher.PrefetchScanTargets | zsim-ramulator/src/prefetcher.cpp:315-346 | every prefetched line lies k lines from the access in the scan direction, was not demanded, and the lines k and 2k behind it were both accessed |
| Prefetcher.PrefetchScanFresh | zsim-ramulator/src/prefetcher.cpp:329 | no prefetched line had been prefetched before |
| Prefetcher.PrefetchScanMap | zsim-ramulator/src/prefetcher.cpp:342 | the prefetch map afterwards is the old one plus exactly the lines prefetched |
| Prefetcher.ScanPage | zsim-ramulator/src/prefetcher.cpp:313-381 | the loop over strides 1 to 16 with its `break`s and `continue`s computes the scan |
| Prefetcher.AmpmSlot | zsim-ramulator/src/prefetcher.cpp:276-297 | the page an access works on is an index of the table |
| Prefetcher.AmpmTouched | zsim-ramulator/src/prefetcher.cpp:299-311 | the page after replacement and marking keeps its 64-line maps |
| Prefetcher.AmpmNonGets | zsim-ramulator/src/prefetcher.cpp:263 | requests that are not GETS go to the parent and change no page |
| Prefetcher.AmpmPageUpdate | zsim-ramulator/src/prefetcher.cpp:276-311 | a GETS works on the page tracking it or, on a miss, on the first page of least `lru`, which is renumbered with cleared maps; that page's `lru` becomes the request cycle and the accessed line is marked; no other page changes |
| Prefetcher.AmpmPrefetches | zsim-ramulator/src/prefetcher.cpp:313-381 | the prefetches are the up-scan's then the down-scan's, at most the degree each, all justified by the access pattern, none prefetched before, the two scans disjoint, and the prefetch map records exactly them |
| Prefetcher.AmpmPrefetcher.FindPage | zsim-ramulator/src/prefetcher.cpp:276-283 | the in-place page-hit loop computes the first match |
| Prefetcher.AmpmPrefetcher.OldestPage | zsim-ramulator/src/prefetcher.cpp:288-296 | the in-place replacement loop computes the oldest page |
| Prefetcher.AmpmPrefetcher.ResetPage | zsim-ramulator/src/prefetcher.cpp:299-305 | a replaced page takes the new number and clears both maps; no other page changes |
| Prefetcher.AmpmPrefetcher.TouchPage | zsim-ramulator/src/prefetcher.cpp:276-311 | the page found or replaced is updated in place as the value model says |
| Prefetcher.AmpmPrefetcher.Access | zsim-ramulator/src/prefetcher.cpp:256-383 | `access` updates the pages and returns the response and the prefetches exactly as the page-level model of an access says |
| Prefetcher.ForwardInvalidate | zsim-ramulator/src/prefetcher.cpp:200-206 | an invalidation is forwarded to every child in order and returns 0 |
| TraceParsers.WordEnd | ramulator/src/Processor.cpp:930-939 | the end of a word is the first white space at or after its start |
| TraceParsers.SplitStr | ramulator/src/Processor.cpp:930-939 | `split_str` yields only non-empty words without white space |
| TraceParsers.NonSpaceAppend | ramulator/src/Processor.cpp:930-939 | the non-space characters of a concatenation are those of its parts |
| TraceParsers.SplitStrKeepsText | ramulator/src/Processor.cpp:930-939 | the words of `split_str`, put back together, are exactly the line's non-space characters, in order |
| TraceParsers.SplitStrCons | ramulator/src/Processor.cpp:930-939 | a word followed by a space splits off as the first word |
| TraceParsers.SplitStrUnwords | ramulator/src/Processor.cpp:930-939 | words written out with single spaces split back into the same words |
| TraceParsers.SplitStrToken | ramulator/src/Processor.cpp:930-939 | a single word splits into itself |
| TraceParsers.FindType | ramulator/src/Processor.cpp:987-993 | the first word that is `L`, `S`, `P` or `I`, or none |
| TraceParsers.FindTypePosition | ramulator/src/Processor.cpp:987-993 | the search loop with its `break` finds the first type word, 0 when there is none |
| TraceParsers.TypePosition | ramulator/src/Processor.cpp:987-993 | with a type word present, the index of the first one; with none, 0 |
| TraceParsers.ZsimType | ramulator/src/Processor.cpp:1010-1013 | `L` sets READ, `S` WRITE, `I` INSTRUCTION, and `P` (any other word) keeps the previous type |
| TraceParsers.ZsimFields | ramulator/src/Processor.cpp:982-1025 | fewer than five words, or a type word among the first three or last, skip the line (`req_addr = -1`, nothing else changed); so does any line `ZsimAccepts` rejects; an accepted line yields the processor number (at most 512) as core id, 0 bubbles for a `-` cycle word and the `unsigned` cycle count otherwise, the address as a signed `long`, and the type its type word sets |
| TraceParsers.ZsimValues | ramulator/src/Processor.cpp:995-1016 | a failed `stoi`/`stoul` or a processor above 512 skips the line; otherwise the bubble count is an `unsigned` value and the core id at most 512, as converted |
| TraceParsers.ZsimRequest | ramulator/src/Processor.cpp:973-1030 | a line is consumed iff one was read and it is not empty; an exhausted stream or an empty line changes nothing; a consumed line is read by `ZsimFields` at its first type word |
| TraceParsers.ZsimLineCases | ramulator/src/Processor.cpp:982-1025 | a non-empty line is consumed, and skipped when it has fewer than five words, no type word, no type word before its last word, or a type word among its first three |
| TraceParsers.ZsimAcceptedLine | ramulator/src/Processor.cpp:994-1018 | a line read in full gives the address word as a signed `long`, a core id of at most 512, no bubbles for a `-` cycle word, and INSTRUCTION for `I`, READ for `L`, WRITE for `S`, the previous type for `P` |
| TraceParsers.GetZsimRequest | ramulator/src/Processor.cpp:973-1029 | the reader, with its type-search loop, computes exactly `ZsimRequest` |
| TraceParsers.ZsimOutcomes | ramulator/src/Processor.cpp:973-1029 | a line is consumed iff one was read and it is not empty; an unconsumed line changes nothing; a consumed one is either skipped with `req_addr = -1` or yields a core id of at most 512 |
| TraceParsers.IntStringChars | ramulator/src/Processor.cpp:995-1006 | a decimal rendering is a sign and digits, never just the sign |
| TraceParsers.IntStringToken | ramulator/src/Processor.cpp:987-1002 | a decimal number is a word, not a type word and not `-` |
| TraceParsers.SplitFiveWords | ramulator/src/Processor.cpp:930-939 | five words written out single-spaced split back into those five words |
| TraceParsers.ZsimLineSplit | ramulator/src/Processor.cpp:980 | a zsim line splits into its five fields |
| TraceParsers.ZsimWordsType | ramulator/src/Processor.cpp:987-993 | in a zsim line the type word is the fourth |
| TraceParsers.ZsimLineWords | ramulator/src/Processor.cpp:994-1006 | the fields of a zsim line whose numbers fit read back through `stoi` and `stoul` as the numbers written |
| TraceParsers.ZsimRequestOfWords | ramulator/src/Processor.cpp:994-1018 | five such words yield bubble count, address (as a signed `long`), type and core id; `P` keeps the previous type |
| TraceParsers.ZsimReadsMemoryTrace | ramulator/src/Processor.cpp:973-1029 | every line the memory controller's trace writer emits reads back as the request it recorded: core, instruction count, line address and load/store type |
| TraceParsers.UnfilteredRequest | ramulator/src/Processor.cpp:828-857 | an exhausted stream consumes nothing and changes nothing; a consumed line is a read or a write |
| TraceParsers.UnfilteredBubbles | ramulator/src/Processor.cpp:840-841 | a failed bubble-count conversion aborts; otherwise the line is consumed as a read or write |
| TraceParsers.UnfilteredAddress | ramulator/src/Processor.cpp:842-843 | a failed address conversion or a `substr` past the end aborts |
| TraceParsers.UnfilteredKind | ramulator/src/Processor.cpp:845-856 | the request type follows the blanks after the address |
| TraceParsers.UnfilteredFields | ramulator/src/Processor.cpp:847-856 | a missing type or `R` is a read, `W` a write, anything else fails the assertion |
| TraceParsers.KindType | ramulator/src/Processor.cpp:847-851 | a write exactly for `W`; no type letter or `R` gives a read; never an instruction |
| TraceParsers.UnfilteredKindOf | ramulator/src/Processor.cpp:845-856 | the type stage applied to a converted address |
| TraceParsers.UnfilteredOfParts | ramulator/src/Processor.cpp:840-856 | a line whose two conversions succeed is read as their values with the type found after them, and fails when that type is not readable |
| TraceParsers.UnfilteredPositions | ramulator/src/Processor.cpp:842-851 | in `bubbles address [R\|W]` the address starts after one blank and the type is found after it |
| TraceParsers.PisaRequest | ramulator/src/Processor.cpp:941-971 | the per-processor records keep their 256 `int` cells; an unconsumed line changes nothing |
| TraceParsers.PisaSplit | ramulator/src/Processor.cpp:947-966 | a split line keeps the record shape and is consumed when it is read |
| TraceParsers.PisaIds | ramulator/src/Processor.cpp:949-954 | after the three ids the processor's record shape is kept |
| TraceParsers.PisaRecord | ramulator/src/Processor.cpp:953-954 | the processor's record becomes the line's cycle, as an `int`, and no other record changes |
| TraceParsers.PisaFields | ramulator/src/Processor.cpp:956-966 | the remaining fields, once converted, give a consumed line |
| TraceParsers.PisaValues | ramulator/src/Processor.cpp:958-966 | the address and size conversions, once they succeed, give a consumed line |
| TraceParsers.PisaReadsWords | ramulator/src/Processor.cpp:947-966 | a well-formed line for a processor below 256 is read: its record becomes the cycle, `L` is a read and anything else a write, and the bubble count is the distance from the processor's previous cycle |
| TraceParsers.PisaIdsOf | ramulator/src/Processor.cpp:949-954 | the instruction count is the 32-bit difference between the line's cycle and the processor's record |
| TraceParsers.PisaFieldsOf | ramulator/src/Processor.cpp:956-963 | a line with convertible address and size is read with the 32-bit bubble count and its type |
| TraceParsers.PisaReadsLine | ramulator/src/Processor.cpp:941-966 | the same for the whole line as `getline` produces it |
| TraceParsers.PisaArithmetic | ramulator/src/Processor.cpp:951-955 | an `int` cycle survives the unsigned conversion, and the 32-bit difference of ordered cycles is exact |
| TraceParsers.PisaConsecutive | ramulator/src/Processor.cpp:941-971 | two successive well-formed lines of one processor give the second a bubble count equal to the distance between their cycles |
| TraceParsers.PisaTrace.constructor | ramulator/src/Processor.cpp:795-807 | all 256 per-processor records start at 0 |
| TraceParsers.PisaTrace.GetPisaRequest | ramulator/src/Processor.cpp:941-971 | `get_pisa_request` updates the records and returns what the one-line model says |
| RamulatorCpu.SqueduleQueue.constructor | ramulator/src/Processor.h:23-30 | a new queue holds no request and its count is 0 |
| RamulatorCpu.SqueduleQueue.IsEmpty | ramulator/src/Processor.h:31-35 | `is_empty` is true iff the count is 0, which is iff the three deques are empty |
| RamulatorCpu.SqueduleQueue.PushBack | ramulator/src/Processor.cpp:95-97 | a push appends to the bubble, address and type deques together and adds one to the count; the other two deques are untouched |
| RamulatorCpu.SqueduleQueue.PopFront | ramulator/src/Processor.h:36-46 | on an empty queue nothing changes; otherwise the fronts of the three deques leave together and the count drops by one; `memory_rqst_sent` and `size` are untouched |
| RamulatorCpu.ReadyPrefix | ramulator/src/Processor.cpp:763-781 | `retire` removes at most `ipc` entries and no more than the window holds |
| RamulatorCpu.ReadyPrefixSpec | ramulator/src/Processor.cpp:769-778 | what `retire` removes is exactly the longest run of ready entries at the front, cut at `ipc`: every removed entry is ready and the next one, if within the limit, is not |
| RamulatorCpu.MarkBlock | ramulator/src/Processor.cpp:783-793 | `set_ready` keeps the number of entries in flight |
| RamulatorCpu.Ring | ramulator/src/Processor.h:101-105 | the `load` entries of the 128-slot ring starting at `tail` |
| RamulatorCpu.Window.constructor | ramulator/src/Processor.h:88-105 | a new window retires up to 4 per cycle, has 128 slots, `load = head = tail = 0`, no entry in flight and every address -1 |
| RamulatorCpu.Window.IsFull | ramulator/src/Processor.cpp:740-743 | `is_full` iff the window holds `depth` entries |
| RamulatorCpu.Window.IsEmpty | ramulator/src/Processor.cpp:745-748 | `is_empty` iff no entry is in flight |
| RamulatorCpu.Window.Insert | ramulator/src/Processor.cpp:751-761 | the entry goes in at `head`, which moves on by one slot modulo the depth; the contents gain the entry at the end; `tail` stays |
| RamulatorCpu.Window.Retire | ramulator/src/Processor.cpp:763-781 | it returns the length of the ready prefix cut at `ipc` and removes exactly those entries from the front; `head` stays and `load` drops by the count (0 on an empty window) |
| RamulatorCpu.Window.DropOldest | ramulator/src/Processor.cpp:772-775 | one pass of `retire`'s loop drops the oldest entry |
| RamulatorCpu.Window.SetReady | ramulator/src/Processor.cpp:783-793 | every entry in flight is marked ready iff its masked address equals the masked argument; the number in flight and the order stay |
| RamulatorCpu.Window.MarkEntry | ramulator/src/Processor.cpp:787-792 | one pass of `set_ready`'s loop marks entry `i` only |
| RamulatorCpu.SlotsDistinct | ramulator/src/Processor.cpp:788 | distinct offsets below the ring size land in distinct slots |
| RamulatorCpu.SlotShift | ramulator/src/Processor.cpp:772 | moving `tail` on by one slot shifts every offset |
| RamulatorCpu.InsertSlots | ramulator/src/Processor.cpp:757-758 | inserting keeps `head == (tail + load) % 128` |
| RamulatorCpu.RetireSlots | ramulator/src/Processor.cpp:772-773 | retiring keeps `head == (tail + load) % 128` |
| RamulatorCpu.RingFront | ramulator/src/Processor.cpp:771 | the oldest entry sits at `tail` |
| RamulatorCpu.RingAt | ramulator/src/Processor.cpp:788 | entry i sits at slot `(tail + i) % 128` |
| RamulatorCpu.RingAppend | ramulator/src/Processor.cpp:754-758 | writing the slot after the last entry appends one entry |
| RamulatorCpu.RingDrop | ramulator/src/Processor.cpp:772-773 | moving `tail` on by one slot drops the oldest entry |
| RamulatorCpu.RingMark | ramulator/src/Processor.cpp:791 | setting the ready bit of entry i's slot marks that entry only |
| RamulatorCpu.MarkBlockAt | ramulator/src/Processor.cpp:787-792 | entry k after `set_ready` is entry k before, marked |
| RamulatorCpu.MarkStep | ramulator/src/Processor.cpp:787-792 | marking entry i extends the marked prefix by one |
| RamulatorCpu.MarkBlockKeepsReady | ramulator/src/Processor.cpp:783-793 | `set_ready` never shortens the ready prefix `retire` can take |
| RamulatorCpu.MarkBlockReadiesOwn | ramulator/src/Processor.cpp:783-793 | every entry waiting for the returned address itself becomes ready |
| RamulatorCpu.Bubbles | ramulator/src/Processor.cpp:541 | the bubbles a tick inserts |
| RamulatorCpu.BubblesAt | ramulator/src/Processor.cpp:541 | every bubble is a ready entry with address -1 |
| RamulatorCpu.Offered | ramulator/src/Processor.cpp:560-580 | always at the pending address; marked as an instruction request exactly for an INSTRUCTION, which travels as a READ; a READ or WRITE keeps its own type |
| RamulatorCpu.CheckAt | ramulator/src/Processor.cpp:547-552 | the limit is recorded, with the cycle and the expected count, the first time the count equals the expected one, and never changes once recorded |
| RamulatorCpu.CheckEachCrosses | ramulator/src/Processor.cpp:538-553 | checking after every bubble of a tick records the limit exactly when the count passes the expected value and nothing was recorded before |
| RamulatorCpu.FinishAt | ramulator/src/Processor.cpp:605-612 | when the trace runs out the limit is recorded with the current cycle and count unless it already was |
| RamulatorCpu.ReachedIsFinal | ramulator/src/Processor.cpp:538-612 | once the limit is recorded no later check changes it |
| RamulatorCpu.Core.constructor | ramulator/src/Processor.cpp:428-520 | a core starts with an empty window and queue, zero clock, counters and stall flags, nothing recorded, and the first request of its trace pending |
| RamulatorCpu.Core.QueueNext | ramulator/src/Processor.cpp:594-604 | the next request is the queue's front, which is popped, or the trace is over when the queue is empty |
| RamulatorCpu.Core.NextRequest | ramulator/src/Processor.cpp:587-604 | with a per-core trace the next zsim line is read and its address goes through the page allocator; otherwise the queue supplies it |
| RamulatorCpu.Core.OutOrderBubbles | ramulator/src/Processor.cpp:537-554 | at most `ipc` bubbles enter the window as ready entries; the loop stops early iff bubbles remain; stopping below the budget means the window is full; exhausting the budget counts one idle cycle; each bubble counts an instruction and a non-memory instruction |
| RamulatorCpu.Core.InsertBubbles | ramulator/src/Processor.cpp:538-554 | the bubble loop over the window: the same bounds, with the limit checked after each bubble |
| RamulatorCpu.Core.OutOrderIssue | ramulator/src/Processor.cpp:556-585 | a READ enters the window not ready with its address only when `send` accepts it; a WRITE is sent but never enters the window; an INSTRUCTION is sent as a READ; a full budget or window offers nothing |
| RamulatorCpu.Core.TickOutOrder | ramulator/src/Processor.cpp:528-615 | retirement first; nothing else once the trace is over with no limit set, or when locked; otherwise the bubble, issue and next-request steps with their counters, and the limit recorded as the two checks say; the bubbles and the READ entered in one tick are at most `ipc`, and a READ or INSTRUCTION is offered only with budget left |
| RamulatorCpu.Core.OutOrderExecute | ramulator/src/Processor.cpp:537-614 | the part of `tick_outOrder` after the early returns: the same steps and the same per-tick bound of `ipc` on the bubbles and the READ entered, with a READ or INSTRUCTION offered only with budget left |
| RamulatorCpu.Core.Advance | ramulator/src/Processor.cpp:587-614 | after an accepted request the next one is fetched and the limit is recorded if the trace ran out |
| RamulatorCpu.Core.InOrderBubbles | ramulator/src/Processor.cpp:629-644 | at most `ipc` bubbles execute, each retired and counted at once, with no window |
| RamulatorCpu.Core.TickInOrder | ramulator/src/Processor.cpp:617-707 | nothing happens once the trace is over with no limit, with a memory access in flight, or when locked; a READ is counted without being sent; an INSTRUCTION is sent and locks the core; the next request comes from the queue |
| RamulatorCpu.Core.InOrderExecute | ramulator/src/Processor.cpp:629-704 | the part of `tick_inOrder` after the early returns |
| RamulatorCpu.Core.InOrderIssue | ramulator/src/Processor.cpp:647-682 | which requests are offered and carried out by the in-order core |
| RamulatorCpu.Core.Tick | ramulator/src/Processor.cpp:710-718 | the clock advances by one, then the tick of the core's type runs; an unknown type does nothing else |
| RamulatorCpu.Core.Receive | ramulator/src/Processor.cpp:731-738 | the entries of the returned cache block become ready (mask `~63`), so `retire` can only take more; memory cycles grow by `depart - max(last, arrive)` only when the request was timed and departs after `last`, which never decreases |
| CString.DigitRun | ramulator/src/Processor.cpp:841-843 | the digits `strtoul` consumes: a prefix of the text in which every character is a digit of the base, followed by the end of the text or by a non-digit |
| CString.SkipSpace | ramulator/src/Processor.cpp:841-843 | the leading white space that the C conversions skip: every skipped character is white space, and the scan stops at the end of the text or at the first character that is not white space |
| CString.ScanNumber | ramulator/src/Processor.cpp:843 | the digits begin within the text, and the effective base is between 2 and 36 (base 0 chooses 16, 8 or 10 from the prefix) |
| CString.StoUl | ramulator/src/Processor.cpp:841-843 | a successful `std::stoul` gives a value below 2^64 and an end position inside the text past at least one character; it fails when no digit is found or the magnitude does not fit |
| CString.StoI | common/DRAMPower/src/cli/drampower.cc:108-111 | a successful `std::stoi` gives a value in the range of a 32-bit `int` |
| CString.FindFirstNotOf | ramulator/src/Processor.cpp:842-845 | `find_first_not_of` returns the first position at or after the start whose character differs, every character before it being the one skipped; `npos` exactly when all the remaining characters are that one |
| CString.NatDigits | ramulator/src/Processor.cpp:949-959 | the decimal rendering used for the round trips is non-empty and made only of the digits 0-9 |
| CString.NatDigitsValue | ramulator/src/Processor.cpp:949-959 | the decimal rendering of `n` consists of base-10 digits whose value is `n` |
| CString.DigitRunAll | ramulator/src/Processor.cpp:841-843 | a text made only of digits is consumed whole |
| CString.DigitRunPrefix | ramulator/src/Processor.cpp:841-843 | digits followed by the end or by a non-digit are consumed exactly up to that point |
| CString.NatDigitsLead | ramulator/src/Processor.cpp:949-959 | the decimal rendering has no leading zero unless the number is 0 |
| CString.ScanSigned | ramulator/src/Processor.cpp:949-951 | in base 10, a text starting with `-` or a digit has its digits at position 1 or 0, the sign read from its first character |
| CString.ScanIntString | ramulator/src/Processor.cpp:949-951 | scanning the decimal rendering of any integer reads its sign and all its remaining characters as digits, whose magnitude is the integer's absolute value |
| CString.StoIRoundTrip | ramulator/src/Processor.cpp:949-951 | `std::stoi` reads back every 32-bit `int` written in decimal |
| CString.AtoiRoundTrip | ramulator/src/Config.h:90-93 | `atoi` reads back every integer written in decimal |
| CString.StoUlRoundTrip | ramulator/src/Processor.cpp:841 | `std::stoul` in base 10 reads back every value below 2^64 written in decimal, and ends after its last digit |
| CString.StoUlOfScan | ramulator/src/Processor.cpp:841-843 | a non-negative scan whose digit run has the given length and a value below 2^64 converts to that value, ending after the run |
| CString.StoUlPrefix | ramulator/src/Processor.cpp:841-843 | a decimal number followed by the end of the line or a space converts to the number in base 10 or base 0, ending after its last digit |
| CString.NoDigitsConversions | common/DRAMPower/src/cli/drampower.cc:94-111 | a text with no decimal digit where the digits should start gives 0 to `atoi` and makes `std::stoi` fail |
| Common.WrapSmall | common/DRAMPower/src/cli/drampower.cc:108-111 | the `unsigned` conversions leave a value that fits in 32 bits unchanged |
| RamulatorConfig.Lookup | ramulator/src/Config.h:41-47 | `operator[]` gives the value stored under the name, and the empty string when the name is not set |
| RamulatorConfig.Added | ramulator/src/Config.h:72-78 | after `add` the names are the old ones plus the new name; a name already set keeps its value, a new one gets the given value, and no other name changes |
| RamulatorConfig.FormatOf | ramulator/src/Config.h:49-56 | a trace name containing "pisa" is PISA; otherwise one containing "zsim" is zsim; anything else is Pin (the three cases, each in both directions) |
| RamulatorConfig.HasL3Cache | ramulator/src/Config.h:116-123 | true exactly when "cache" is set to "all" or "L3"; false when it is not set |
| RamulatorConfig.HasCoreCaches | ramulator/src/Config.h:124-131 | true exactly when "cache" is set to "all" or "L1L2"; false when it is not set |
| RamulatorConfig.IsEarlyExit | ramulator/src/Config.h:132-141 | false exactly when "early_exit" is set to "off"; true when it is not set |
| RamulatorConfig.Switch | ramulator/src/Config.h:145-164 | a default-off switch is on exactly when its option is set to "on"; off when it is not set |
| RamulatorConfig.RecordCmdTrace | ramulator/src/Config.h:145-154 | on exactly when "record_cmd_trace" is set to "on" |
| RamulatorConfig.PrintCmdTrace | ramulator/src/Config.h:155-164 | on exactly when "print_cmd_trace" is set to "on" |
| RamulatorConfig.ExpectedLimitInsts | ramulator/src/Config.h:109-115 | 0 when the option is not set; otherwise the `atoi` value of the option (so the assertion of `get_int_value` cannot fail here) |
| RamulatorConfig.ExpectedLimitRoundTrip | ramulator/src/Config.h:90-115 | a limit assigned in decimal is the limit read back |
| RamulatorConfig.ExpectedLimitKeptByAdd | ramulator/src/Config.h:72-78 | a limit that is already set is not changed by a later `add` of the same name |
| RamulatorConfig.Config.constructor | ramulator/src/Config.h:38 | a new configuration holds no option |
| RamulatorConfig.Config.Add | ramulator/src/Config.h:72-78 | the option map becomes `Added` of the old one: the name reads its old value when it was already set, otherwise the new value; the format is unchanged |
| RamulatorConfig.Config.Set | ramulator/src/Config.h:80-84 | the name now reads the new value whether or not it was set, every other name reads what it read before, and the format is unchanged |
| RamulatorConfig.Config.SetTraceFormat | ramulator/src/Config.h:49-56 | the format becomes `FormatOf` the trace name; the options are unchanged |
| DramPowerCli.IndexOf | common/DRAMPower/src/cli/drampower.cc:107 | `find` returns a position holding the character with no earlier occurrence, and `npos` exactly when the character does not occur |
| DramPowerCli.IndexOfFirst | common/DRAMPower/src/cli/drampower.cc:107 | the first occurrence of the character is the position `find` returns |
| DramPowerCli.UpToComma | common/DRAMPower/src/cli/drampower.cc:107-108 | with no comma, `substr(0, npos)` is the whole text |
| DramPowerCli.AfterComma | common/DRAMPower/src/cli/drampower.cc:109 | with no comma, `erase(0, npos + 1)` erases nothing, since `npos + 1` wraps to 0 |
| DramPowerCli.CommaPieces | common/DRAMPower/src/cli/drampower.cc:107-111 | for "a,b" with no comma in `a`, the text before the comma is `a` and the text after it is `b` |
| DramPowerCli.FlagOf | common/DRAMPower/src/cli/drampower.cc:84-119 | an argument is `-m`, `-r`, `-t`, `-c`, `-b` or `-pasr` exactly when it spells that flag |
| DramPowerCli.StepArg | common/DRAMPower/src/cli/drampower.cc:83-129 | one loop iteration sets `term` exactly when the argument is `-r`, wherever it stands; sets `memory` exactly for `-m` followed by a value; keeps each path given exactly when its flag is set; and fails exactly for `-b` followed by a value that `stoi` rejects |
| DramPowerCli.ApplyArg | common/DRAMPower/src/cli/drampower.cc:83-129 | the loop body computes exactly the step `StepArg` describes |
| DramPowerCli.ParseArgs | common/DRAMPower/src/cli/drampower.cc:82-130 | the loop over `argv[1..]`, starting from the initial values of lines 69-80, gives the scan `ScanArgs` describes: it stops at the first failure, otherwise it returns the options after the last argument |
| DramPowerCli.CheckOptions | common/DRAMPower/src/cli/drampower.cc:132-166 | no message exactly when rho and sigma are at most 100, the PASR mode is at most 7, a memory specification was given and the trace to read opens |
| DramPowerCli.CheckArch | common/DRAMPower/src/cli/drampower.cc:177-200 | no message exactly when bankwise mode is not combined with two voltage domains, interleaving and grouping do not exceed the banks and bank groups, the power-down option is at most 2, and PASR is on only with bankwise mode |
| DramPowerCli.Configure | common/DRAMPower/src/cli/drampower.cc:132-210 | succeeds exactly when every check passes and the minimum size is not zero; the request size is the minimum size, or the larger of the minimum and the `-s` value when one was given; the burst count is the request size divided by the minimum size, truncated as C does, and is at least 1 when the minimum size is positive; the paths, options and bankwise parameters are passed on unchanged |
| DramPowerCli.CommandLine | common/DRAMPower/src/cli/drampower.cc:67-210 | a command line is accepted exactly when its scan succeeds and the scanned options pass every check; an accepted line has `-m` followed by a value, and has `-t` or `-c` |
| DramPowerCli.BurstPositive | common/DRAMPower/src/cli/drampower.cc:202-210 | a request size at least as large as a positive minimum size is at least one burst |
| DramPowerCli.ScanPaths | common/DRAMPower/src/cli/drampower.cc:84-92 | after a successful scan, each of the three paths is given exactly when its flag is set |
| DramPowerCli.ScanMemory | common/DRAMPower/src/cli/drampower.cc:90-92 | after a successful scan, a memory specification is given exactly when it was given before or some `-m` is followed by another argument |
| DramPowerCli.ScanTerm | common/DRAMPower/src/cli/drampower.cc:119-127 | after a successful scan, termination power is on exactly when it was on before or some argument is `-r` |
| DramPowerCli.NoArguments | common/DRAMPower/src/cli/drampower.cc:82-150 | the program name alone scans to the initial options, in which no memory specification is given, so `main` ends in the usage message |
| DramPowerCli.ParseBankwise | common/DRAMPower/src/cli/drampower.cc:102-114 | `-b` fails exactly when the text before the first comma, or the text after it up to the next comma, is not a number `stoi` accepts; otherwise rho and sigma are those numbers cast to `unsigned` |
| DramPowerCli.BankwiseNoComma | common/DRAMPower/src/cli/drampower.cc:102-114 | a `-b` value without a comma gives the same number to rho and sigma |
| DramPowerCli.BankwisePairRoundTrip | common/DRAMPower/src/cli/drampower.cc:102-114 | "rho,sigma" written in decimal reads back both factors |
| DramPowerCli.BankwiseSingleRoundTrip | common/DRAMPower/src/cli/drampower.cc:102-114 | "rho" alone written in decimal reads back rho for both factors |
| DramPowerCli.BankwiseNotNumber | common/DRAMPower/src/cli/drampower.cc:106-114 | a `-b` value that is empty or starts with something other than white space, a sign or a digit fails |
| MemSpecParsing.ParameterOf | common/DRAMPower/src/xmlparser/MemSpecParser.cc:64-67 | a `parameter` element yields a parameter exactly when it has both an "id" and a "value" attribute (the assertion of `getValue`); the id and the value are those attributes, and the type is the "type" attribute or "uint" when it is absent |
| MemSpecParsing.WithSection | common/DRAMPower/src/xmlparser/MemSpecParser.cc:56-63 | replacing one of the four parameter lists leaves the other three as they were |
| MemSpecParsing.Pushed | common/DRAMPower/src/xmlparser/MemSpecParser.cc:69 | `pushParameter` appends the parameter to the selected list only, and does not change whether that list was processed |
| MemSpecParsing.Processed | common/DRAMPower/src/xmlparser/MemSpecParser.cc:76-88 | `processParameters` records that the selected list was processed with exactly its current parameters and changes no other list |
| MemSpecParsing.Start | common/DRAMPower/src/xmlparser/MemSpecParser.cc:54-71 | fails exactly for a `parameter` element that misses "id" or "value" or comes before any element has selected a list (the assertion at line 68); "memspec" selects the top-level list and a section element its own section; a parameter is appended to the selected list; no element other than a parameter changes a list; any other element changes nothing |
| MemSpecParsing.End | common/DRAMPower/src/xmlparser/MemSpecParser.cc:73-90 | the end of a section processes that section and selects the top-level list again; the end of "memspec" processes the top-level list and keeps the selection; any other end changes nothing |
| MemSpecParsing.Params | common/DRAMPower/src/xmlparser/MemSpecParser.cc:64-67 | a sequence of complete `parameter` attribute maps yields one parameter per element, each exactly the one `ParameterOf` gives |
| MemSpecParsing.RunAppend | common/DRAMPower/src/xmlparser/MemSpecParser.cc:54-90 | handling two event sequences one after the other is the same as handling their concatenation, a failure in the first stopping the reading |
| MemSpecParsing.AppendedTwice | common/DRAMPower/src/xmlparser/MemSpecParser.cc:69 | appending two runs of parameters to a list one after the other appends their concatenation |
| MemSpecParsing.RunParams | common/DRAMPower/src/xmlparser/MemSpecParser.cc:64-70 | once a list is selected, a run of complete parameter elements appends exactly their parameters, in order, to that list and changes nothing else |
| MemSpecParsing.RunParamElement | common/DRAMPower/src/xmlparser/MemSpecParser.cc:64-70 | one complete parameter element with its end appends that one parameter to the selected list |
| MemSpecParsing.RunSection | common/DRAMPower/src/xmlparser/MemSpecParser.cc:58-86 | a section element holding complete parameters succeeds, appends exactly those parameters to its own section, processes the section with its whole list, selects the top-level list again and leaves the other lists alone |
| MemSpecParsing.SpecExt | common/DRAMPower/src/xmlparser/MemSpecParser.cc:56-63 | a specification is determined by its four parameter lists |
| MemSpecParsing.RunSections | common/DRAMPower/src/xmlparser/MemSpecParser.cc:58-86 | the three sections read one after the other from the top level give each section exactly its own parameters, processed, and leave the top-level list empty |
| MemSpecParsing.RunDocument | common/DRAMPower/src/xmlparser/MemSpecParser.cc:49-90 | reading from a new handler a "memspec" document holding the three sections gives each section exactly its own parameters, processed, and processes the empty top-level list |
| MemSpecParsing.ParameterFirstFails | common/DRAMPower/src/xmlparser/MemSpecParser.cc:49-68 | a parameter element before any other element fails the handler's assertion, whatever follows |
| MemSpecParsing.MemSpecParser.constructor | common/DRAMPower/src/xmlparser/MemSpecParser.cc:49-52 | a new handler has no list selected and an empty specification |
| MemSpecParsing.MemSpecParser.StartElementOf | common/DRAMPower/src/xmlparser/MemSpecParser.cc:54-71 | the fields change as `Start` says, and the result is false exactly where `Start` fails |
| MemSpecParsing.MemSpecParser.EndElementOf | common/DRAMPower/src/xmlparser/MemSpecParser.cc:73-90 | the fields change as `End` says |

## Left out

- ooo_core.cpp plumbing is not modelled: the trace-file output and its `mtx_traces` lock, `l1d->offload` messaging and `bbl_offload_mc`, the Pin callbacks with the global `cores[]` and `TakeBarrier`, `initStats`, and `join`/`leave`/`cSimStart`/`cSimEnd` (they depend on the contention recorder, whose code is not part of this model). They are I/O, driver, concurrency or statistics code.
- The trackers (`rob`, `insWindow`, `uopQueue`, `loadQueue`, `storeQueue`), `l1i`/`l1d` and the branch predictor are declared in headers that are not part of this model. Their answers are inputs (`Collaborators`), and `insWindow.advancePos` is taken to move to the next cycle.
- `FWD_ENTRIES` and `MAX_REGISTERS` come from those headers. They are construction parameters of `OOOCore`. The forwarding slot is `(addr / 4) mod entries`, which is what the source's mask computes for the power-of-two table size.
- OooCore.OOOCore.RunUops: requires the block to have no more loads and stores than recorded addresses. `bbl` indexes `loadAddrs`/`storeAddrs` without a check; its consistency checks are the commented-out `assert_msg` at ooo_core.cpp:663-664, and the decoder that produces the counts is not part of this model.
- OooCore.OOOCore.SimulateBuffered: the same requirement on the buffered block, for the same reason.
- OooCore.OOOCore.Bbl: the same requirement on the block buffered before, for the same reason.
- OooCore.OOOCore.SimulatePrev: the same requirement, for the same reason.
- The `ptrace`, `previous_instr`, `offload_instrs` and `function_offload_instructions` counters of `OOOCore::bbl` (ooo_core.cpp:496-505 and the per-kind `previous_instr++`) and the `only_offload` hand-over of `print_trace` (ooo_core.cpp:735-739) are not modelled. They feed only the offloading trace output, which is left out above.
- OooCore.OOOCore.FetchBbl: the fetch addresses `bblAddr + i * lineSize` are unbounded integers. The source's 64-bit wrap-around past the top of the address space is not modelled (the wrong-path addresses are wrapped).
- Both prefetcher `access` methods overwrite `req.childId` with their own child index (prefetcher.cpp:74, 260). They do not restore it on the non-`GETS` returns (77, 263) or on AMPM's return (382), and stream prefetches are issued with the overwritten id (155). The model's request has no `childId`, so this is not modelled.
- Prefetcher statistics, `setParents`/`setChildren`, and the configuration read by the constructors (`prefetcher.h` is not part of this model) are left out. A prefetcher starts with blank tables. `SatCounter`, `Entry::alloc`, the AMPM page count and `PREFETCH_DEGREE` are parameters.
- mem_ctrls.cpp: the futex and `__sync` primitives and the profiling counters are left out, and the phase update is sequential.
  - The M/D/1 arithmetic is over `real`, without IEEE `double` rounding.
  - The casts of the M/D/1 constructor are written over `real`.
  - A trace line is kept as a value and not printed.
- MemCtrls.MD1Memory.constructor: requires a non-zero bandwidth, the one input for which the assertion at mem_ctrls.cpp:161 fails. `MemCtrls.MD1Memory.Create` models that failure as `Fail`. An infinite peak rate (zero clock rate or request size) is the `Unbounded` case.
- MemCtrls.SimpleAccess: the latency is a 64-bit value; its declared width in `mem_ctrls.h` is not part of this model, so a narrower latency type is not modelled.
- MemCtrls.MemoryTraces.Access: the same 64-bit latency, for the same reason.
- MemCtrls.LoadedLatency: the `(uint32_t)` cast at mem_ctrls.cpp:188 is undefined when the scaled latency is at least 2^32; the model truncates toward zero without that bound, so a zero-load latency that large is not modelled.
- Processor.cpp and Processor.h: the `Processor` constructor's distribution of trace lines to cores is left out (it needs the HMC `dynamic_cast`, address slicing and `page_allocator`). So are `Processor::tick`/`receive`/`finished`/`has_reached_limit`, the floating-point `calc_stats`/`calc_ipc`, and the stream handling of `Trace` (`getline`, `seekg`, `ifstream`).
  - A core's next trace line comes in as a parameter `next`.
  - `page_allocator` is the parameter `allocate`.
  - Whether `send` accepts a request is the parameter `sendOk`.
  - Statistics are plain counters.
  - The `memory.record_core(id)` calls sit inside the limit-recording blocks, next to the writes of `record_cycs` and `record_insts`: either when the instruction count reaches `expected_limit_insts` or, at the end of the trace, when the limit was not yet reached (Processor.cpp:548-551, 608-611, 639-642, 661-664, 699-702). Those blocks are what `CheckAt` and `FinishAt` model; the call itself goes to the memory side, whose code is not part of this model, and has no counterpart.
- RamulatorCpu.Window.Insert: requires the window not to be full (`load < depth`). The source asserts only `load <= depth`, so an insert into a full window, which would overwrite the oldest entry, is not modelled. Both calls in `tick_outOrder` (Processor.cpp:543, 564) follow an `is_full` check (Processor.cpp:541, 559).
- The READ branch of `Core::tick_inOrder` (Processor.cpp:651-668) cannot be reached: the branch before it already handles READ. It is therefore not modelled separately.
- `get_filtered_request` and `get_dramtrace_request` belong to the memory-side trace front end and are not part of this model.
- Config.h: `Config::parse`, `parse_to_const` (which `set` also calls, and whose code is not part of this model), `get_cpu_tick` (floating-point division), the getters and setters outside the option map, and `get_int_value` on a missing name (an assertion; the modelled caller checks `contains` first) are left out. The format that `Config()` leaves uninitialised is given the value Pin.
- drampower.cc: whether a trace file opens is the parameter `opens`. The memory architecture that `MemSpecParser::getMemSpecFromXML` returns is the input `ArchSpec`. The trace parser, the power model, the printing and the wall-clock timing are I/O and are left out.
- DramPowerCli.Configure: `min_size` is computed without the `int` overflow of the product `interleaving * grouping * burstLength * width`, so an overflowing product is not modelled.
- CString.Atoi: an out-of-range `atoi`, which is undefined in C, is not modelled; the value is the unbounded decimal value.
- MemSpecParser.cc: `processParameters` (whose code is in the specification classes, not part of this model) is represented by the parameter list it was last run on. The Xerces plumbing and transcoding of XMLParser.cc, XMLHandler.cc and XMLHandler.h is left out. The assertion of `getValue` on a missing attribute becomes a `Fail`.
- zsim-ramulator/validation/validate_hostTraces.py, zsim-ramulator/src/null_core.h, the nekbone benchmark, DRAMPower's test scripts and `window_example.cc` are offline scripts, declarations or benchmark drivers, and are not modelled.
