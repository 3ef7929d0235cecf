/** The out-of-order timing core of zsim (`OOOCore`): per basic block it
    walks the micro-ops of the previously buffered block through decode,
    issue, register read, dispatch and a per-kind commit rule, keeping a
    register scoreboard, a store-to-load forwarding table and two store
    watermarks, then models the branch misprediction wrong-path fetches and
    the instruction fetch of the next block.

    The trackers (reorder buffer, issue window, decode queue, load and store
    queues), the L1 caches and the branch predictor are collaborators whose
    code is not part of this model. Their answers enter as a `Collaborators`
    value: for every micro-op and every fetch, the cycle or latency the
    collaborator returned. Every property below holds for all such answers. */
module OooCore {
  import opened Common
  import CString

  // Pipeline constants of ooo_core.cpp.
  const FETCH_STAGE: nat := 1
  const DECODE_STAGE: nat := 4
  const ISSUE_STAGE: nat := 7
  const DISPATCH_STAGE: nat := 13
  const L1D_LAT: nat := 4
  const FETCH_BYTES_PER_CYCLE: nat := 16
  const ISSUES_PER_CYCLE: nat := 4
  const RF_READS_PER_CYCLE: nat := 3

  /** `(Address)-1L`: the marker of a predicated-false memory operation and of
      an unused forwarding entry. */
  const NO_ADDR: Address := TWO_64 - 1

  datatype UopType = General | Load | Store | StoreAddr | Fence

  /** A decoded micro-op (`DynUop`): source and destination registers
      (0 is the always-ready register), latency, decode-cycle offset within
      the block, and the issue-port resources it needs. */
  datatype DynUop = DynUop(kind: UopType, rs0: nat, rs1: nat, rd0: nat, rd1: nat,
                           lat: nat, decCycle: nat, portMask: nat, extraSlots: nat)

  /** The decoder's description of a basic block (`BblInfo` with its `DynBbl`). */
  datatype BblInfo = BblInfo(instrs: nat, bytes: nat, approxInstrs: nat, uops: seq<DynUop>)

  /** One slot of the store-to-load forwarding table. */
  datatype FwdEntry = FwdEntry(addr: Address, storeCycle: nat)

  /** What the collaborators answered while one block was simulated, indexed
      by micro-op position (or fetch number for the two fetch loops):
      - `uopQueueMinAlloc(i)`, `robMinAlloc(i)`, `loadQueueMinAlloc(i)`,
        `storeQueueMinAlloc(i)`: the trackers' `minAllocCycle()`;
      - `scheduleCurDelay(i)`, `scheduleDispatchDelay(i)`: how far
        `insWindow.schedule` moved the current and the dispatch cycle;
      - `l1dLatency(i)`: `l1d->load/store(addr, c) - c` for the access of uop i;
      - `wrongPathLatency(j)`, `fetchLatency(j)`: `l1i->load(a, curCycle) - curCycle`;
      - `predictionCorrect`: the result of `branchPred.predict`. */
  datatype Collaborators = Collaborators(
    uopQueueMinAlloc: nat -> nat,
    robMinAlloc: nat -> nat,
    loadQueueMinAlloc: nat -> nat,
    storeQueueMinAlloc: nat -> nat,
    scheduleCurDelay: nat -> nat,
    scheduleDispatchDelay: nat -> nat,
    l1dLatency: nat -> nat,
    wrongPathLatency: nat -> nat,
    fetchLatency: nat -> nat,
    predictionCorrect: bool)

  /** The state of a core when it starts simulating a block, which the
      block loop's invariant refers back to. */
  datatype BlockStart = BlockStart(fwd: seq<FwdEntry>, regs: seq<nat>, rob: seq<nat>, lq: seq<nat>,
                                   sq: seq<nat>, lastStore: nat, lastStoreAddr: nat, cycle: nat,
                                   decode: nat)

  /** The fields of a core that simulating a block may change, besides its
      register scoreboard and forwarding table. */
  datatype CoreTiming = CoreTiming(decodeCycle: nat, curCycle: nat, issuedUops: nat, rfReads: nat,
                                   lastStoreCommit: nat, lastStoreAddrCommit: nat,
                                   instrs: nat, uops: nat, bbls: nat, approxInstrs: nat,
                                   mispredBranches: nat, branchPc: Address,
                                   rob: seq<nat>, lq: seq<nat>, sq: seq<nat>)

  /** Timing of one simulated micro-op: the current cycle when its operands
      were read (`regScoreboard[0]`), the issue cycle after the read-port
      throttle, and its dispatch and commit cycles. */
  datatype UopTiming = UopTiming(readCycle: nat, issueCycle: nat, dispatchCycle: nat, commitCycle: nat)

  /** What one call of `bbl` did besides updating the core: the timings of
      the simulated block's micro-ops, its last commit, the decode cycle its
      micro-ops left behind, the branch outcome and wrong-path lines, and
      the fetch of the next block. */
  datatype BblReport = BblReport(
    simulated: bool,
    timings: seq<UopTiming>,
    lastCommitCycle: nat,
    blockDecodeCycle: nat,
    mispredicted: bool,
    wrongPathLines: seq<Address>,
    fetchStartCycle: nat,
    fetchLines: seq<int>,
    fetchCycle: nat)

  predicate UopFits(u: DynUop, numRegs: nat) {
    u.rs0 < numRegs && u.rs1 < numRegs && u.rd0 < numRegs && u.rd1 < numRegs
  }

  /** Number of load micro-ops among the first `i` of `s`. */
  function LoadsBefore(s: seq<DynUop>, i: nat): nat
    requires i <= |s|
  {
    if i == 0 then 0 else LoadsBefore(s, i - 1) + (if s[i - 1].kind == Load then 1 else 0)
  }

  /** Number of store micro-ops among the first `i` of `s`. */
  function StoresBefore(s: seq<DynUop>, i: nat): nat
    requires i <= |s|
  {
    if i == 0 then 0 else StoresBefore(s, i - 1) + (if s[i - 1].kind == Store then 1 else 0)
  }

  function LoadCount(s: seq<DynUop>): nat {
    LoadsBefore(s, |s|)
  }

  function StoreCount(s: seq<DynUop>): nat {
    StoresBefore(s, |s|)
  }

  function Pow2(n: nat): (r: nat)
    ensures r >= 1
  {
    if n == 0 then 1 else 2 * Pow2(n - 1)
  }

  /** `(addr >> 2) & (FWD_ENTRIES - 1)`: the forwarding slot of an address,
      written as the remainder that the mask computes for a power-of-two
      table size. */
  function FwdIndex(addr: Address, entries: nat): (r: nat)
    requires entries > 0
    ensures r < entries
  {
    (addr / 4) % entries
  }

  /** Number of wrong-path line fetches issued from fetch `j` on, when the
      next request leaves at `reqCycle`: every fetch is issued, and the loop
      stops after the first one whose response comes after `lastCommit`. */
  function WrongPathCount(reqCycle: nat, j: nat, n: nat, lastCommit: nat,
                          lat: nat -> nat, lineSize: nat): (r: nat)
    ensures r <= n - j || (j >= n && r == 0)
    ensures j < n ==> 1 <= r
    decreases n - j
  {
    if j >= n then 0
    else if reqCycle + lat(j) > lastCommit then 1
    else 1 + WrongPathCount(reqCycle + lat(j) + lineSize / FETCH_BYTES_PER_CYCLE, j + 1, n,
                            lastCommit, lat, lineSize)
  }

  /** Addresses of the first `n` lines of a fetch starting at `base`. */
  function LineSeq(base: int, lineSize: nat, n: nat): (r: seq<int>)
    ensures |r| == n
  {
    if n == 0 then [] else LineSeq(base, lineSize, n - 1) + [base + lineSize * (n - 1)]
  }

  /** The same addresses as 64-bit values. */
  function WrappedLineSeq(base: int, lineSize: nat, n: nat): (r: seq<Address>)
    ensures |r| == n
  {
    if n == 0 then [] else WrappedLineSeq(base, lineSize, n - 1) + [Wrap64(base + lineSize * (n - 1))]
  }

  lemma {:induction false} LineSeqAt(base: int, lineSize: nat, n: nat, j: nat)
    requires j < n
    ensures LineSeq(base, lineSize, n)[j] == base + lineSize * j
    ensures WrappedLineSeq(base, lineSize, n)[j] == Wrap64(base + lineSize * j)
  {
    if j < n - 1 {
      LineSeqAt(base, lineSize, n - 1, j);
    }
  }

  /** `n` lines of `lineSize` bytes are the fewest that cover `bytes` bytes. */
  predicate CoversBytes(n: nat, lineSize: nat, bytes: nat) {
    n * lineSize >= bytes && (n > 0 ==> (n - 1) * lineSize < bytes)
  }

  /** Sum of the first `n` latencies. */
  function LatencySum(lat: nat -> nat, n: nat): nat {
    if n == 0 then 0 else LatencySum(lat, n - 1) + lat(n - 1)
  }

  /** A micro-op dispatches at least the dispatch-to-issue distance after
      it issues and commits no earlier than it dispatches. */
  predicate WellTimed(t: UopTiming) {
    t.commitCycle >= t.dispatchCycle >= t.issueCycle + (DISPATCH_STAGE - ISSUE_STAGE)
  }

  lemma {:induction false} CountMonotone(s: seq<DynUop>, i: nat, j: nat)
    requires i <= j <= |s|
    ensures LoadsBefore(s, i) <= LoadsBefore(s, j) && StoresBefore(s, i) <= StoresBefore(s, j)
    decreases j - i
  {
    if i < j {
      CountMonotone(s, i, j - 1);
    }
  }

  /** What the block loop guarantees of micro-op `k` with timing `t`: it
      dispatches after the ROB frees a slot and the issue-to-dispatch
      distance, loads and stores after their queue frees a slot, and it
      commits no earlier than it dispatches; a store commits when the L1d
      answers, and the kinds that do not touch memory after their latency. */
  predicate UopTimely(u: DynUop, k: nat, t: UopTiming, env: Collaborators) {
    && WellTimed(t)
    && t.dispatchCycle >= Max(env.robMinAlloc(k), t.issueCycle) + (DISPATCH_STAGE - ISSUE_STAGE)
    && (u.kind == Load ==> t.dispatchCycle >= env.loadQueueMinAlloc(k))
    && (u.kind == Store ==> t.dispatchCycle >= env.storeQueueMinAlloc(k))
    && (u.kind == Store ==> t.commitCycle == t.dispatchCycle + env.l1dLatency(k) + L1D_LAT)
    && (u.kind in {General, StoreAddr, Fence} ==> t.commitCycle == t.dispatchCycle + u.lat)
  }

  /** Every one of the first `n` micro-ops is timely, and the loads and stores
      among them dispatch after the store addresses committed before the
      block (cycle `lsac`). */
  predicate BlockTimely(s: seq<DynUop>, ts: seq<UopTiming>, env: Collaborators, lsac: nat, n: nat)
    requires n <= |s| && n <= |ts|
  {
    forall k :: 0 <= k < n ==>
      && UopTimely(s[k], k, ts[k], env)
      && (s[k].kind in {Load, Store} ==> ts[k].dispatchCycle >= lsac + 1)
  }

  lemma BlockTimelyExtend(s: seq<DynUop>, ts: seq<UopTiming>, t: UopTiming, env: Collaborators, lsac: nat, n: nat)
    requires n < |s| && n == |ts| && BlockTimely(s, ts, env, lsac, n)
    requires UopTimely(s[n], n, t, env)
    requires s[n].kind in {Load, Store} ==> t.dispatchCycle >= lsac + 1
    ensures BlockTimely(s, ts + [t], env, lsac, n + 1)
  {
    assert forall k :: 0 <= k < n ==> (ts + [t])[k] == ts[k];
  }

  /** The commit cycles of the first `n` timings, in order. */
  function Commits(ts: seq<UopTiming>, n: nat): seq<nat>
    requires n <= |ts|
  {
    if n == 0 then [] else Commits(ts, n - 1) + [ts[n - 1].commitCycle]
  }

  /** The commit cycles of the micro-ops of kind `kind` among the first `n`,
      in order. */
  function KindCommits(s: seq<DynUop>, ts: seq<UopTiming>, kind: UopType, n: nat): seq<nat>
    requires n <= |s| && n <= |ts|
  {
    if n == 0 then []
    else KindCommits(s, ts, kind, n - 1) + (if s[n - 1].kind == kind then [ts[n - 1].commitCycle] else [])
  }

  /** The address `bbl` hands micro-op `k`: the j-th load of the block takes
      the j-th recorded load address, the j-th store the j-th recorded store
      address; the other kinds take none. */
  function UopAddr(s: seq<DynUop>, loads: seq<Address>, stores: seq<Address>, k: nat): Address
    requires k < |s|
  {
    if s[k].kind == Load && LoadsBefore(s, k) < |loads| then loads[LoadsBefore(s, k)]
    else if s[k].kind == Store && StoresBefore(s, k) < |stores| then stores[StoresBefore(s, k)]
    else 0
  }

  /** The forwarding table after the first `n` micro-ops: every store, in
      order, writes its address and commit cycle to the slot of its address. */
  function FwdAfter(fwd: seq<FwdEntry>, s: seq<DynUop>, loads: seq<Address>, stores: seq<Address>,
                    ts: seq<UopTiming>, n: nat): (r: seq<FwdEntry>)
    requires n <= |s| && n <= |ts| && |fwd| > 0
    ensures |r| == |fwd|
  {
    if n == 0 then fwd
    else
      var f := FwdAfter(fwd, s, loads, stores, ts, n - 1);
      if s[n - 1].kind == Store then
        var a := UopAddr(s, loads, stores, n - 1);
        f[FwdIndex(a, |fwd|) := FwdEntry(a, ts[n - 1].commitCycle)]
      else f
  }

  /** The register scoreboard after the first `n` micro-ops: each sets
      register 0 to its read cycle, then both its destinations to its
      commit cycle. */
  function RegsAfter(regs: seq<nat>, s: seq<DynUop>, ts: seq<UopTiming>, n: nat): (r: seq<nat>)
    requires n <= |s| && n <= |ts| && |regs| > 0
    requires forall k :: 0 <= k < n ==> UopFits(s[k], |regs|)
    ensures |r| == |regs|
  {
    if n == 0 then regs
    else
      var g := RegsAfter(regs, s, ts, n - 1);
      var u, t := s[n - 1], ts[n - 1];
      assert UopFits(s[n - 1], |regs|);
      g[0 := t.readCycle][u.rd0 := t.commitCycle][u.rd1 := t.commitCycle]
  }

  /** The state after the first `n` micro-ops depends only on their own
      timings: a timing appended later changes none of it. */
  lemma {:induction false} AfterExtend(s: seq<DynUop>, ts: seq<UopTiming>, t: UopTiming, n: nat,
                                      fwd: seq<FwdEntry>, loads: seq<Address>, stores: seq<Address>,
                                      regs: seq<nat>)
    requires n <= |s| && n <= |ts| && |fwd| > 0 && |regs| > 0
    requires forall k :: 0 <= k < n ==> UopFits(s[k], |regs|)
    ensures Commits(ts + [t], n) == Commits(ts, n)
    ensures KindCommits(s, ts + [t], Load, n) == KindCommits(s, ts, Load, n)
    ensures KindCommits(s, ts + [t], Store, n) == KindCommits(s, ts, Store, n)
    ensures FwdAfter(fwd, s, loads, stores, ts + [t], n) == FwdAfter(fwd, s, loads, stores, ts, n)
    ensures RegsAfter(regs, s, ts + [t], n) == RegsAfter(regs, s, ts, n)
  {
    if n > 0 {
      AfterExtend(s, ts, t, n - 1, fwd, loads, stores, regs);
      assert (ts + [t])[n - 1] == ts[n - 1];
    }
  }

  /** Appending the timing of micro-op `n` advances each of the above by
      exactly that micro-op. */
  lemma AfterStep(s: seq<DynUop>, ts: seq<UopTiming>, t: UopTiming, n: nat,
                  fwd: seq<FwdEntry>, loads: seq<Address>, stores: seq<Address>, regs: seq<nat>)
    requires n < |s| && n == |ts| && |fwd| > 0 && |regs| > 0
    requires forall k :: 0 <= k <= n ==> UopFits(s[k], |regs|)
    ensures Commits(ts + [t], n + 1) == Commits(ts, n) + [t.commitCycle]
    ensures KindCommits(s, ts + [t], Load, n + 1)
            == KindCommits(s, ts, Load, n) + (if s[n].kind == Load then [t.commitCycle] else [])
    ensures KindCommits(s, ts + [t], Store, n + 1)
            == KindCommits(s, ts, Store, n) + (if s[n].kind == Store then [t.commitCycle] else [])
    ensures var a := UopAddr(s, loads, stores, n);
            FwdAfter(fwd, s, loads, stores, ts + [t], n + 1)
            == if s[n].kind == Store then FwdAfter(fwd, s, loads, stores, ts, n)[FwdIndex(a, |fwd|) := FwdEntry(a, t.commitCycle)]
               else FwdAfter(fwd, s, loads, stores, ts, n)
    ensures RegsAfter(regs, s, ts + [t], n + 1)
            == RegsAfter(regs, s, ts, n)[0 := t.readCycle][s[n].rd0 := t.commitCycle][s[n].rd1 := t.commitCycle]
  {
    AfterExtend(s, ts, t, n, fwd, loads, stores, regs);
    assert (ts + [t])[n] == t;
  }

  /** The suffix of `name` after its last `-` (all of it when there is none). */
  function AfterLastDash(name: string): (r: string)
    ensures forall k :: 0 <= k < |r| ==> r[k] != '-'
    ensures |r| <= |name| && r == name[|name| - |r|..]
  {
    if |name| == 0 then []
    else if name[|name| - 1] == '-' then []
    else AfterLastDash(name[..|name| - 1]) + [name[|name| - 1]]
  }

  /** `name.find('-', from)`. */
  function FindDash(name: string, from: nat): (r: Option<nat>)
    ensures r.Some? ==> from <= r.value < |name| && name[r.value] == '-'
    ensures r.Some? ==> forall k :: from <= k < r.value ==> name[k] != '-'
    ensures r.None? ==> forall k :: from <= k < |name| ==> name[k] != '-'
    decreases |name| - from
  {
    if from >= |name| then None
    else if name[from] == '-' then Some(from)
    else FindDash(name, from + 1)
  }

  /** The text after the last `-` starts right after any `-` that has no
      other `-` behind it. */
  lemma {:induction false} AfterLastDashFrom(name: string, start: nat)
    requires start <= |name|
    requires start == 0 || name[start - 1] == '-'
    requires forall k :: start <= k < |name| ==> name[k] != '-'
    ensures AfterLastDash(name) == name[start..]
    decreases |name|
  {
    if start < |name| {
      var init := name[..|name| - 1];
      AfterLastDashFrom(init, start);
      assert name[start..] == init[start..] + [name[|name| - 1]];
    }
  }

  /** The core index a core name ends with (`"...-3"` gives 3), as the
      constructor computes it: the text after the last `-`, read by `atoi`. */
  method CoreIdxFromName(name: string) returns (idx: int)
    ensures idx == CString.Atoi(AfterLastDash(name))
  {
    var start := 0;
    var end := FindDash(name, 0);
    while end.Some?
      invariant start <= |name|
      invariant start == 0 || name[start - 1] == '-'
      invariant end == FindDash(name, start)
      decreases |name| - start
    {
      start := end.value + 1;
      end := FindDash(name, start);
    }
    AfterLastDashFrom(name, start);
    idx := CString.Atoi(name[start..]);
  }

  /** A name of the form `prefix-<n>` yields core index `n`. */
  lemma CoreIdxOfNumberedName(prefix: string, n: nat)
    ensures CString.Atoi(AfterLastDash(prefix + "-" + CString.IntString(n))) == n
  {
    var d := CString.IntString(n);
    var name := prefix + "-" + d;
    assert forall k :: |prefix| + 1 <= k < |name| ==> name[k] == d[k - |prefix| - 1];
    AfterLastDashFrom(name, |prefix| + 1);
    assert name[|prefix| + 1..] == d;
    CString.AtoiRoundTrip(n);
  }

  class OOOCore {
    const lineSize: nat
    const numRegs: nat
    const fwdEntries: nat
    const regScoreboard: array<nat>
    const fwdArray: array<FwdEntry>

    var prevBbl: Option<BblInfo>
    var loadAddrs: seq<Address>
    var storeAddrs: seq<Address>

    var decodeCycle: nat
    var curCycle: nat
    var curCycleIssuedUops: nat
    var curCycleRFReads: nat
    var lastStoreCommitCycle: nat
    var lastStoreAddrCommitCycle: nat

    var branchPc: Address
    var branchTaken: bool
    var branchTakenNpc: Address
    var branchNotTakenNpc: Address

    var instrs: nat
    var uops: nat
    var bbls: nat
    var approxInstrs: nat
    var mispredBranches: nat
    var coreIdx: int

    /** Commit cycles passed to `rob.markRetire`, `loadQueue.markRetire` and
        `storeQueue.markRetire`, in call order. */
    var robRetired: seq<nat>
    var loadQueueRetired: seq<nat>
    var storeQueueRetired: seq<nat>

    ghost predicate Valid()
      reads this
    {
      && regScoreboard.Length == numRegs > 0
      && fwdArray.Length == fwdEntries
      && 0 < fwdEntries <= TWO_64
      && lineSize > 0
      && curCycleIssuedUops <= ISSUES_PER_CYCLE
      && curCycleRFReads <= RF_READS_PER_CYCLE
      && decodeCycle >= DECODE_STAGE
    }

    constructor (name: string, lineBits: nat, maxRegisters: nat, fwdTableEntries: nat)
      requires lineBits < 32 && maxRegisters > 0
      requires 0 < fwdTableEntries <= TWO_64
      ensures Valid() && fresh(regScoreboard) && fresh(fwdArray)
      ensures lineSize == Pow2(lineBits) && numRegs == maxRegisters && fwdEntries == fwdTableEntries
      ensures decodeCycle == DECODE_STAGE && curCycle == 0
      ensures forall r :: 0 <= r < numRegs ==> regScoreboard[r] == 0
      ensures forall k :: 0 <= k < fwdEntries ==> fwdArray[k] == FwdEntry(NO_ADDR, 0)
      ensures prevBbl.None? && loadAddrs == [] && storeAddrs == []
      ensures lastStoreCommitCycle == 0 && lastStoreAddrCommitCycle == 0
      ensures curCycleRFReads == 0 && curCycleIssuedUops == 0 && branchPc == 0
      ensures instrs == 0 && uops == 0 && bbls == 0 && approxInstrs == 0 && mispredBranches == 0
      ensures coreIdx == CString.Atoi(AfterLastDash(name))
      ensures robRetired == [] && loadQueueRetired == [] && storeQueueRetired == []
    {
      var idx := CoreIdxFromName(name);
      lineSize := Pow2(lineBits);
      numRegs := maxRegisters;
      fwdEntries := fwdTableEntries;
      regScoreboard := new nat[maxRegisters](_ => 0);
      fwdArray := new FwdEntry[fwdTableEntries](_ => FwdEntry(NO_ADDR, 0));
      coreIdx := idx;
      decodeCycle := DECODE_STAGE;
      curCycle := 0;
      prevBbl := None;
      loadAddrs, storeAddrs := [], [];
      lastStoreCommitCycle, lastStoreAddrCommitCycle := 0, 0;
      curCycleRFReads, curCycleIssuedUops := 0, 0;
      branchPc, branchTaken, branchTakenNpc, branchNotTakenNpc := 0, false, 0, 0;
      instrs, uops, bbls, approxInstrs, mispredBranches := 0, 0, 0, 0, 0;
      robRetired, loadQueueRetired, storeQueueRetired := [], [], [];
    }

    /** `load(addr, size)`: records the address of the next load of the block. */
    method RecordLoad(addr: Address)
      modifies this`loadAddrs
      ensures loadAddrs == old(loadAddrs) + [addr]
    {
      loadAddrs := loadAddrs + [addr];
    }

    /** `store(addr, size)`: records the address of the next store of the block. */
    method RecordStore(addr: Address)
      modifies this`storeAddrs
      ensures storeAddrs == old(storeAddrs) + [addr]
    {
      storeAddrs := storeAddrs + [addr];
    }

    /** `predFalseMemOp()`: a predicated-off memory operation is recorded as a
        load of `NO_ADDR`. */
    method PredFalseMemOp()
      modifies this`loadAddrs
      ensures loadAddrs == old(loadAddrs) + [NO_ADDR]
    {
      loadAddrs := loadAddrs + [NO_ADDR];
    }

    /** `branch(pc, taken, takenNpc, notTakenNpc)`. */
    method Branch(pc: Address, taken: bool, takenNpc: Address, notTakenNpc: Address)
      modifies this`branchPc, this`branchTaken, this`branchTakenNpc, this`branchNotTakenNpc
      ensures branchPc == pc && branchTaken == taken
      ensures branchTakenNpc == takenNpc && branchNotTakenNpc == notTakenNpc
    {
      branchPc, branchTaken, branchTakenNpc, branchNotTakenNpc := pc, taken, takenNpc, notTakenNpc;
    }

    /** `contextSwitch(gid)`: on a switch-out (-1) the buffered block is
        dropped, so the next block is only buffered. */
    method ContextSwitch(gid: int)
      modifies this`prevBbl
      ensures prevBbl == if gid == -1 then None else old(prevBbl)
    {
      if gid == -1 {
        prevBbl := None;
      }
    }

    /** `advance(targetCycle)`: fast-forwards the core; the issue window's
        `longAdvance` brings the current cycle to the target. */
    method Advance(targetCycle: nat)
      requires Valid()
      requires targetCycle > curCycle
      modifies this`decodeCycle, this`curCycle, this`curCycleRFReads, this`curCycleIssuedUops
      ensures Valid()
      ensures decodeCycle == old(decodeCycle) + (targetCycle - old(curCycle))
      ensures curCycle == targetCycle
      ensures curCycleRFReads == 0 && curCycleIssuedUops == 0
    {
      decodeCycle := decodeCycle + (targetCycle - curCycle);
      curCycle := targetCycle;
      curCycleRFReads := 0;
      curCycleIssuedUops := 0;
    }

    /** `insWindow.advancePos(curCycle)`: the issue window moves on one cycle. */
    method AdvancePos()
      modifies this`curCycle
      ensures curCycle == old(curCycle) + 1
    {
      curCycle := curCycle + 1;
    }

    /** Decode stall: the decode cycle follows the micro-op's decode offset and
        the decode queue; if it runs ahead of the current cycle, the issue
        window skips forward by the difference (as a `uint32_t`) and the
        per-cycle counters restart. */
    method DecodeStall(decDiff: nat, uopQueueMin: nat)
      requires Valid()
      modifies this`decodeCycle, this`curCycle, this`curCycleIssuedUops, this`curCycleRFReads
      ensures Valid()
      ensures decodeCycle == Max(old(decodeCycle) + decDiff, uopQueueMin)
      ensures decodeCycle > old(curCycle) ==>
                curCycle == old(curCycle) + Wrap32(decodeCycle - old(curCycle))
                && curCycleIssuedUops == 0 && curCycleRFReads == 0
      ensures decodeCycle <= old(curCycle) ==>
                curCycle == old(curCycle) && curCycleIssuedUops == old(curCycleIssuedUops)
                && curCycleRFReads == old(curCycleRFReads)
    {
      decodeCycle := Max(decodeCycle + decDiff, uopQueueMin);
      if decodeCycle > curCycle {
        var cdDiff := Wrap32(decodeCycle - curCycle);
        curCycleIssuedUops := 0;
        curCycleRFReads := 0;
        var k := 0;
        while k < cdDiff
          invariant k <= cdDiff
          invariant curCycle == old(curCycle) + k
          invariant decodeCycle == Max(old(decodeCycle) + decDiff, uopQueueMin)
          invariant curCycleIssuedUops == 0 && curCycleRFReads == 0
        {
          AdvancePos();
          k := k + 1;
        }
      }
    }

    /** Issue width: at most `ISSUES_PER_CYCLE` micro-ops issue per cycle. */
    method IssueThrottle()
      requires Valid()
      modifies this`curCycle, this`curCycleIssuedUops, this`curCycleRFReads
      ensures Valid()
      ensures 1 <= curCycleIssuedUops <= ISSUES_PER_CYCLE
      ensures old(curCycleIssuedUops) >= ISSUES_PER_CYCLE ==>
                curCycle == old(curCycle) + 1 && curCycleIssuedUops == 1 && curCycleRFReads == 0
      ensures old(curCycleIssuedUops) < ISSUES_PER_CYCLE ==>
                curCycle == old(curCycle) && curCycleIssuedUops == old(curCycleIssuedUops) + 1
                && curCycleRFReads == old(curCycleRFReads)
    {
      if curCycleIssuedUops >= ISSUES_PER_CYCLE {
        curCycleIssuedUops := 0;
        curCycleRFReads := 0;
        AdvancePos();
      }
      curCycleIssuedUops := curCycleIssuedUops + 1;
    }

    /** Register read: register 0 is made ready now, the two sources are read,
        and each source whose ready cycle lies before the current cycle takes
        a register-file port; more than `RF_READS_PER_CYCLE` ports roll the
        excess over into the next cycle. */
    method ReadOperands(rs0: nat, rs1: nat) returns (c0: nat, c1: nat)
      requires Valid() && rs0 < numRegs && rs1 < numRegs
      modifies this`curCycle, this`curCycleIssuedUops, this`curCycleRFReads, regScoreboard
      ensures Valid()
      ensures regScoreboard[..] == old(regScoreboard[..])[0 := old(curCycle)]
      ensures c0 == regScoreboard[rs0] && c1 == regScoreboard[rs1]
      ensures var portReads := old(curCycleRFReads) + (if c0 < old(curCycle) then 1 else 0)
                                                + (if c1 < old(curCycle) then 1 else 0);
              if portReads > RF_READS_PER_CYCLE then
                curCycleRFReads == portReads - RF_READS_PER_CYCLE && curCycleIssuedUops == 0
                && curCycle == old(curCycle) + 1
              else
                curCycleRFReads == portReads && curCycleIssuedUops == old(curCycleIssuedUops)
                && curCycle == old(curCycle)
    {
      regScoreboard[0] := curCycle;
      c0 := regScoreboard[rs0];
      c1 := regScoreboard[rs1];
      curCycleRFReads := curCycleRFReads + (if c0 < curCycle then 1 else 0) + (if c1 < curCycle then 1 else 0);
      if curCycleRFReads > RF_READS_PER_CYCLE {
        curCycleRFReads := curCycleRFReads - RF_READS_PER_CYCLE;
        curCycleIssuedUops := 0;
        AdvancePos();
      }
    }

    /** Load execution: waits for the load queue and for every older store
        address, goes to the L1 data cache unless predicated off, and is then
        held back to the forwarding entry of a matching older store. */
    method ExecuteLoad(dispatch0: nat, lqMin: nat, l1dLat: nat, addr: Address)
      returns (dispatch: nat, commit: nat)
      requires Valid()
      modifies this`loadQueueRetired
      ensures dispatch == Max(Max(lqMin, dispatch0), lastStoreAddrCommitCycle + 1)
      ensures var req := if addr == NO_ADDR then dispatch else dispatch + l1dLat + L1D_LAT;
              var e := fwdArray[FwdIndex(addr, fwdEntries)];
              commit == (if e.addr == addr then Max(req, e.storeCycle) else req)
      ensures loadQueueRetired == old(loadQueueRetired) + [commit]
    {
      dispatch := dispatch0;
      var lqCycle := lqMin;
      if lqCycle > dispatch {
        dispatch := lqCycle;
      }
      dispatch := Max(lastStoreAddrCommitCycle + 1, dispatch);
      var reqSatisfiedCycle := dispatch;
      if addr != NO_ADDR {
        reqSatisfiedCycle := dispatch + l1dLat + L1D_LAT;
      }
      var fwdIdx := FwdIndex(addr, fwdEntries);
      if fwdArray[fwdIdx].addr == addr {
        reqSatisfiedCycle := Max(reqSatisfiedCycle, fwdArray[fwdIdx].storeCycle);
      }
      commit := reqSatisfiedCycle;
      loadQueueRetired := loadQueueRetired + [commit];
    }

    /** Store execution: waits like a load, completes after the L1 data cache
        access, fills the forwarding slot of its address and raises the
        store-commit watermark. */
    method ExecuteStore(dispatch0: nat, sqMin: nat, l1dLat: nat, addr: Address)
      returns (dispatch: nat, commit: nat)
      requires Valid()
      modifies this`lastStoreCommitCycle, this`storeQueueRetired, fwdArray
      ensures dispatch == Max(Max(sqMin, dispatch0), lastStoreAddrCommitCycle + 1)
      ensures commit == dispatch + l1dLat + L1D_LAT
      ensures fwdArray[..] == old(fwdArray[..])[FwdIndex(addr, fwdEntries) := FwdEntry(addr, commit)]
      ensures lastStoreCommitCycle == Max(old(lastStoreCommitCycle), commit)
      ensures storeQueueRetired == old(storeQueueRetired) + [commit]
    {
      dispatch := dispatch0;
      var sqCycle := sqMin;
      if sqCycle > dispatch {
        dispatch := sqCycle;
      }
      dispatch := Max(lastStoreAddrCommitCycle + 1, dispatch);
      var reqSatisfiedCycle := dispatch + l1dLat + L1D_LAT;
      fwdArray[FwdIndex(addr, fwdEntries)] := FwdEntry(addr, reqSatisfiedCycle);
      commit := reqSatisfiedCycle;
      lastStoreCommitCycle := Max(lastStoreCommitCycle, reqSatisfiedCycle);
      storeQueueRetired := storeQueueRetired + [commit];
    }

    /** Per-kind commit rule; `addr` is the recorded address of a load or store. */
    method Execute(uop: DynUop, i: nat, dispatch0: nat, env: Collaborators, addr: Address)
      returns (dispatch: nat, commit: nat)
      requires Valid()
      modifies this`lastStoreCommitCycle, this`lastStoreAddrCommitCycle,
               this`loadQueueRetired, this`storeQueueRetired, fwdArray
      ensures Valid()
      ensures dispatch >= dispatch0 && commit >= dispatch
      ensures uop.kind in {Load, Store} ==> dispatch >= old(lastStoreAddrCommitCycle) + 1
      ensures uop.kind == Load ==> dispatch >= env.loadQueueMinAlloc(i)
      ensures uop.kind == Store ==> dispatch >= env.storeQueueMinAlloc(i)
      ensures uop.kind in {General, StoreAddr, Fence} ==>
                dispatch == dispatch0 && commit == dispatch + uop.lat
      ensures uop.kind == Load ==>
                var e := old(fwdArray[FwdIndex(addr, fwdEntries)]);
                && (e.addr == addr ==> commit >= e.storeCycle)
                && (addr == NO_ADDR && (e.addr != addr || e.storeCycle <= dispatch) ==> commit == dispatch)
                && (addr != NO_ADDR ==> commit >= dispatch + env.l1dLatency(i) + L1D_LAT)
      ensures uop.kind == Store ==>
                commit == dispatch + env.l1dLatency(i) + L1D_LAT
                && fwdArray[..] == old(fwdArray[..])[FwdIndex(addr, fwdEntries) := FwdEntry(addr, commit)]
      ensures uop.kind != Store ==> fwdArray[..] == old(fwdArray[..])
      ensures lastStoreCommitCycle == if uop.kind == Store then Max(old(lastStoreCommitCycle), commit)
                                      else old(lastStoreCommitCycle)
      ensures lastStoreAddrCommitCycle ==
                match uop.kind
                case StoreAddr => Max(old(lastStoreAddrCommitCycle), commit)
                case Fence => Max(commit, Max(old(lastStoreAddrCommitCycle), old(lastStoreCommitCycle) + uop.lat))
                case _ => old(lastStoreAddrCommitCycle)
      ensures loadQueueRetired == old(loadQueueRetired) + (if uop.kind == Load then [commit] else [])
      ensures storeQueueRetired == old(storeQueueRetired) + (if uop.kind == Store then [commit] else [])
    {
      dispatch := dispatch0;
      match uop.kind {
        case General =>
          commit := dispatch + uop.lat;
        case Load =>
          dispatch, commit := ExecuteLoad(dispatch0, env.loadQueueMinAlloc(i), env.l1dLatency(i), addr);
        case Store =>
          dispatch, commit := ExecuteStore(dispatch0, env.storeQueueMinAlloc(i), env.l1dLatency(i), addr);
        case StoreAddr =>
          commit := dispatch + uop.lat;
          lastStoreAddrCommitCycle := Max(lastStoreAddrCommitCycle, commit);
        case Fence =>
          commit := dispatch + uop.lat;
          lastStoreAddrCommitCycle := Max(commit, Max(lastStoreAddrCommitCycle, lastStoreCommitCycle + uop.lat));
      }
    }

    /** Front end of one micro-op at position `i`: decode stall, issue
        width, register read and the dispatch cycle the issue window grants. */
    method IssueAndDispatch(uop: DynUop, i: nat, prevDecCycle: nat, env: Collaborators)
      returns (readCycle: nat, issueCycle: nat, dispatch: nat)
      requires Valid() && UopFits(uop, numRegs)
      modifies this`decodeCycle, this`curCycle, this`curCycleIssuedUops, this`curCycleRFReads,
               regScoreboard
      ensures Valid()
      ensures decodeCycle == Max(old(decodeCycle) + Wrap32(uop.decCycle - prevDecCycle),
                                 env.uopQueueMinAlloc(i))
      ensures old(curCycle) <= readCycle <= issueCycle <= curCycle
      ensures decodeCycle - old(curCycle) < TWO_32 ==> readCycle >= decodeCycle
      ensures regScoreboard[..] == old(regScoreboard[..])[0 := readCycle]
      ensures dispatch >= regScoreboard[uop.rs0] && dispatch >= regScoreboard[uop.rs1]
      ensures dispatch >= Max(env.robMinAlloc(i), issueCycle) + (DISPATCH_STAGE - ISSUE_STAGE)
    {
      DecodeStall(Wrap32(uop.decCycle - prevDecCycle), env.uopQueueMinAlloc(i));
      IssueThrottle();
      readCycle := curCycle;
      var c0, c1 := ReadOperands(uop.rs0, uop.rs1);
      var c2 := env.robMinAlloc(i);
      var c3 := curCycle;
      issueCycle := c3;
      var cOps := Max(c0, c1);
      dispatch := Max(cOps, Max(c2, c3) + (DISPATCH_STAGE - ISSUE_STAGE));
      // insWindow.schedule may move both the current and the dispatch cycle on
      curCycle := curCycle + env.scheduleCurDelay(i);
      dispatch := dispatch + env.scheduleDispatchDelay(i);
      if curCycle > c3 {
        curCycleIssuedUops := 0;
        curCycleRFReads := 0;
      }
    }

    /** One micro-op of the buffered block, at position `i`, through decode,
        issue, register read, dispatch, execution and retirement. */
    method SimulateUop(uop: DynUop, i: nat, prevDecCycle: nat, env: Collaborators, addr: Address)
      returns (t: UopTiming)
      requires Valid() && UopFits(uop, numRegs)
      modifies this`decodeCycle, this`curCycle, this`curCycleIssuedUops, this`curCycleRFReads,
               this`lastStoreCommitCycle, this`lastStoreAddrCommitCycle,
               this`robRetired, this`loadQueueRetired, this`storeQueueRetired,
               regScoreboard, fwdArray
      ensures Valid()
      ensures decodeCycle == Max(old(decodeCycle) + Wrap32(uop.decCycle - prevDecCycle),
                                 env.uopQueueMinAlloc(i))
      ensures old(curCycle) <= t.readCycle <= t.issueCycle <= curCycle
      ensures decodeCycle - old(curCycle) < TWO_32 ==> t.readCycle >= decodeCycle
      // operands: register 0 is ready at the read cycle
      ensures var src0 := if uop.rs0 == 0 then t.readCycle else old(regScoreboard[uop.rs0]);
              var src1 := if uop.rs1 == 0 then t.readCycle else old(regScoreboard[uop.rs1]);
              t.dispatchCycle >= src0 && t.dispatchCycle >= src1
      ensures t.dispatchCycle >= Max(env.robMinAlloc(i), t.issueCycle) + (DISPATCH_STAGE - ISSUE_STAGE)
      ensures t.commitCycle >= t.dispatchCycle
      ensures uop.kind in {Load, Store} ==> t.dispatchCycle >= old(lastStoreAddrCommitCycle) + 1
      ensures uop.kind == Load ==> t.dispatchCycle >= env.loadQueueMinAlloc(i)
      ensures uop.kind == Store ==> t.dispatchCycle >= env.storeQueueMinAlloc(i)
      ensures uop.kind in {General, StoreAddr, Fence} ==> t.commitCycle == t.dispatchCycle + uop.lat
      ensures uop.kind == Load ==>
                var e := old(fwdArray[FwdIndex(addr, fwdEntries)]);
                && (e.addr == addr ==> t.commitCycle >= e.storeCycle)
                && (addr == NO_ADDR && (e.addr != addr || e.storeCycle <= t.dispatchCycle) ==>
                      t.commitCycle == t.dispatchCycle)
      ensures uop.kind == Store ==>
                fwdArray[..] == old(fwdArray[..])[FwdIndex(addr, fwdEntries) := FwdEntry(addr, t.commitCycle)]
      ensures uop.kind != Store ==> fwdArray[..] == old(fwdArray[..])
      // watermarks
      ensures lastStoreCommitCycle >= old(lastStoreCommitCycle)
      ensures lastStoreAddrCommitCycle >= old(lastStoreAddrCommitCycle)
      ensures uop.kind == Store ==> lastStoreCommitCycle >= t.commitCycle
      ensures uop.kind == Fence ==> lastStoreAddrCommitCycle >= t.commitCycle
                                    && lastStoreAddrCommitCycle >= old(lastStoreCommitCycle) + uop.lat
      // retirement and dependences
      ensures robRetired == old(robRetired) + [t.commitCycle]
      ensures loadQueueRetired == old(loadQueueRetired) + (if uop.kind == Load then [t.commitCycle] else [])
      ensures storeQueueRetired == old(storeQueueRetired) + (if uop.kind == Store then [t.commitCycle] else [])
      ensures regScoreboard[uop.rd0] == t.commitCycle && regScoreboard[uop.rd1] == t.commitCycle
      ensures forall r :: 0 < r < numRegs && r != uop.rd0 && r != uop.rd1 ==>
                regScoreboard[r] == old(regScoreboard[r])
      ensures regScoreboard[..] == old(regScoreboard[..])[0 := t.readCycle][uop.rd0 := t.commitCycle][uop.rd1 := t.commitCycle]
      ensures uop.kind == Store ==> t.commitCycle == t.dispatchCycle + env.l1dLatency(i) + L1D_LAT
    {
      ghost var regs0 := regScoreboard[..];
      var readCycle, issueCycle, dispatchCycle := IssueAndDispatch(uop, i, prevDecCycle, env);
      var dispatch, commitCycle := Execute(uop, i, dispatchCycle, env, addr);
      robRetired := robRetired + [commitCycle];
      regScoreboard[uop.rd0] := commitCycle;
      regScoreboard[uop.rd1] := commitCycle;
      t := UopTiming(readCycle, issueCycle, dispatch, commitCycle);
      assert forall r :: 0 < r < numRegs && r != uop.rd0 && r != uop.rd1 ==> regScoreboard[r] == regs0[r];
    }

    /** `SimulateUop`, seen through what the block loop needs: the timing
        guarantees of `UopTimely`, the store-address wait of loads and
        stores, and the exact new retirement sequences, forwarding table and
        scoreboard. */
    method Step(uop: DynUop, i: nat, prevDecCycle: nat, env: Collaborators, addr: Address)
      returns (t: UopTiming)
      requires Valid() && UopFits(uop, numRegs)
      modifies this`decodeCycle, this`curCycle, this`curCycleIssuedUops, this`curCycleRFReads,
               this`lastStoreCommitCycle, this`lastStoreAddrCommitCycle,
               this`robRetired, this`loadQueueRetired, this`storeQueueRetired,
               regScoreboard, fwdArray
      ensures Valid()
      ensures UopTimely(uop, i, t, env)
      ensures uop.kind in {Load, Store} ==> t.dispatchCycle >= old(lastStoreAddrCommitCycle) + 1
      ensures curCycle >= old(curCycle) && decodeCycle >= old(decodeCycle)
      ensures lastStoreCommitCycle >= old(lastStoreCommitCycle)
      ensures lastStoreAddrCommitCycle >= old(lastStoreAddrCommitCycle)
      ensures robRetired == old(robRetired) + [t.commitCycle]
      ensures loadQueueRetired == old(loadQueueRetired) + (if uop.kind == Load then [t.commitCycle] else [])
      ensures storeQueueRetired == old(storeQueueRetired) + (if uop.kind == Store then [t.commitCycle] else [])
      ensures uop.kind == Store ==>
                fwdArray[..] == old(fwdArray[..])[FwdIndex(addr, fwdEntries) := FwdEntry(addr, t.commitCycle)]
      ensures uop.kind != Store ==> fwdArray[..] == old(fwdArray[..])
      ensures regScoreboard[..] == old(regScoreboard[..])[0 := t.readCycle][uop.rd0 := t.commitCycle][uop.rd1 := t.commitCycle]
    {
      t := SimulateUop(uop, i, prevDecCycle, env, addr);
    }

    /** The timing state and statistics of the core: decode and current
        cycle, the per-cycle issue and register-read counts, the store
        watermarks, the counters, the pending branch and the retirement
        sequences. */
    ghost function Timing(): CoreTiming
      reads this
    {
      CoreTiming(decodeCycle, curCycle, curCycleIssuedUops, curCycleRFReads,
                 lastStoreCommitCycle, lastStoreAddrCommitCycle,
                 instrs, uops, bbls, approxInstrs, mispredBranches, branchPc,
                 robRetired, loadQueueRetired, storeQueueRetired)
    }

    /** The state a block starts from. */
    ghost function Start(): BlockStart
      reads this, fwdArray, regScoreboard
    {
      BlockStart(fwdArray[..], regScoreboard[..], robRetired, loadQueueRetired, storeQueueRetired,
                 lastStoreCommitCycle, lastStoreAddrCommitCycle, curCycle, decodeCycle)
    }

    /** The block loop's invariant after the first `n` micro-ops of `bbl`,
        with timings `ts`: the next recorded addresses to hand out are at
        `loadIdx` and `storeIdx`, every micro-op so far is timely, and the
        retirement sequences, forwarding table and scoreboard are those of
        `b` advanced by exactly those micro-ops. */
    ghost predicate InBlock(bbl: BblInfo, env: Collaborators, ts: seq<UopTiming>, n: nat,
                            loadIdx: nat, storeIdx: nat, b: BlockStart)
      reads this, fwdArray, regScoreboard
    {
      && Valid()
      && (forall k :: 0 <= k < |bbl.uops| ==> UopFits(bbl.uops[k], numRegs))
      && LoadCount(bbl.uops) <= |loadAddrs| && StoreCount(bbl.uops) <= |storeAddrs|
      && n <= |bbl.uops| && |ts| == n && |b.fwd| == fwdEntries && |b.regs| == numRegs
      && loadIdx == LoadsBefore(bbl.uops, n) && storeIdx == StoresBefore(bbl.uops, n)
      && BlockTimely(bbl.uops, ts, env, b.lastStoreAddr, n)
      && robRetired == b.rob + Commits(ts, n)
      && loadQueueRetired == b.lq + KindCommits(bbl.uops, ts, Load, n)
      && storeQueueRetired == b.sq + KindCommits(bbl.uops, ts, Store, n)
      && fwdArray[..] == FwdAfter(b.fwd, bbl.uops, loadAddrs, storeAddrs, ts, n)
      && regScoreboard[..] == RegsAfter(b.regs, bbl.uops, ts, n)
      && lastStoreCommitCycle >= b.lastStore
      && lastStoreAddrCommitCycle >= b.lastStoreAddr
      && curCycle >= b.cycle && decodeCycle >= b.decode
    }

    /** The address `bbl` hands micro-op `i` (`loadAddrs[loadIdx++]` for a
        load, `storeAddrs[storeIdx++]` for a store, none otherwise), and the
        advanced indices. */
    method NextAddr(s: seq<DynUop>, i: nat, loadIdx: nat, storeIdx: nat)
      returns (addr: Address, nextLoadIdx: nat, nextStoreIdx: nat)
      requires i < |s| && LoadCount(s) <= |loadAddrs| && StoreCount(s) <= |storeAddrs|
      requires loadIdx == LoadsBefore(s, i) && storeIdx == StoresBefore(s, i)
      ensures s[i].kind in {Load, Store} ==> addr == UopAddr(s, loadAddrs, storeAddrs, i)
      ensures s[i].kind !in {Load, Store} ==> addr == 0
      ensures nextLoadIdx == LoadsBefore(s, i + 1) && nextStoreIdx == StoresBefore(s, i + 1)
    {
      CountMonotone(s, i + 1, |s|);
      addr, nextLoadIdx, nextStoreIdx := 0, loadIdx, storeIdx;
      if s[i].kind == Load {
        addr := loadAddrs[loadIdx];
        nextLoadIdx := loadIdx + 1;
      } else if s[i].kind == Store {
        addr := storeAddrs[storeIdx];
        nextStoreIdx := storeIdx + 1;
      }
    }

    /** One iteration of the block loop: micro-op `i` takes the next recorded
        load or store address, and the invariant advances by exactly that
        micro-op. */
    method BlockStep(bbl: BblInfo, env: Collaborators, i: nat, prevDecCycle: nat,
                     loadIdx: nat, storeIdx: nat, ghost ts: seq<UopTiming>, ghost b: BlockStart)
      returns (t: UopTiming, nextLoadIdx: nat, nextStoreIdx: nat)
      requires i < |bbl.uops| && InBlock(bbl, env, ts, i, loadIdx, storeIdx, b)
      modifies this`decodeCycle, this`curCycle, this`curCycleIssuedUops, this`curCycleRFReads,
               this`lastStoreCommitCycle, this`lastStoreAddrCommitCycle,
               this`robRetired, this`loadQueueRetired, this`storeQueueRetired,
               regScoreboard, fwdArray
      ensures InBlock(bbl, env, ts + [t], i + 1, nextLoadIdx, nextStoreIdx, b)
    {
      var addr;
      addr, nextLoadIdx, nextStoreIdx := NextAddr(bbl.uops, i, loadIdx, storeIdx);
      t := Step(bbl.uops[i], i, prevDecCycle, env, addr);
      AfterStep(bbl.uops, ts, t, i, b.fwd, loadAddrs, storeAddrs, b.regs);
      BlockTimelyExtend(bbl.uops, ts, t, env, b.lastStoreAddr, i);
    }

    /** What simulating block `b` from state `s0`, with recorded load and
        store addresses `loads` and `stores`, leaves behind: one timely
        timing per micro-op in `ts`, loads and stores dispatched after the
        store addresses committed before the block, `lastCommit` the commit
        of the last micro-op, the retirement sequences, forwarding table and
        scoreboard advanced by exactly those micro-ops, and a decode cycle
        `decode` that has not gone back. */
    ghost predicate BlockSimulated(b: BblInfo, env: Collaborators, ts: seq<UopTiming>, lastCommit: nat,
                                   decode: nat, s0: BlockStart, loads: seq<Address>, stores: seq<Address>)
      reads this`robRetired, this`loadQueueRetired, this`storeQueueRetired, fwdArray, regScoreboard
    {
      && |ts| == |b.uops| && |s0.fwd| > 0 && |s0.regs| > 0
      && (forall k :: 0 <= k < |b.uops| ==> UopFits(b.uops[k], |s0.regs|))
      && (forall k :: 0 <= k < |b.uops| ==> UopTimely(b.uops[k], k, ts[k], env))
      && (forall k :: 0 <= k < |b.uops| && b.uops[k].kind in {Load, Store} ==>
            ts[k].dispatchCycle >= s0.lastStoreAddr + 1)
      && lastCommit == (if |b.uops| == 0 then 0 else ts[|b.uops| - 1].commitCycle)
      && robRetired == s0.rob + Commits(ts, |b.uops|)
      && loadQueueRetired == s0.lq + KindCommits(b.uops, ts, Load, |b.uops|)
      && storeQueueRetired == s0.sq + KindCommits(b.uops, ts, Store, |b.uops|)
      && fwdArray[..] == FwdAfter(s0.fwd, b.uops, loads, stores, ts, |b.uops|)
      && regScoreboard[..] == RegsAfter(s0.regs, b.uops, ts, |b.uops|)
      && decode >= s0.decode
    }

    /** Before its first micro-op a block satisfies the loop's invariant
        against the state it starts from. */
    lemma BlockBegins(bbl: BblInfo, env: Collaborators)
      requires Valid() && forall k :: 0 <= k < |bbl.uops| ==> UopFits(bbl.uops[k], numRegs)
      requires LoadCount(bbl.uops) <= |loadAddrs| && StoreCount(bbl.uops) <= |storeAddrs|
      ensures InBlock(bbl, env, [], 0, 0, 0, Start())
    {
    }

    /** The block loop's invariant over all micro-ops is what simulating the
        block leaves behind. */
    lemma BlockDone(bbl: BblInfo, env: Collaborators, ts: seq<UopTiming>, lastCommit: nat,
                    loadIdx: nat, storeIdx: nat, b: BlockStart)
      requires InBlock(bbl, env, ts, |bbl.uops|, loadIdx, storeIdx, b)
      requires lastCommit == if |bbl.uops| == 0 then 0 else ts[|bbl.uops| - 1].commitCycle
      ensures BlockSimulated(bbl, env, ts, lastCommit, decodeCycle, b, loadAddrs, storeAddrs)
    {
    }

    /** Simulates the micro-ops of a buffered block in order, feeding loads
        and stores the addresses recorded for them. */
    method RunUops(bbl: BblInfo, env: Collaborators) returns (timings: seq<UopTiming>, lastCommitCycle: nat)
      requires Valid() && forall k :: 0 <= k < |bbl.uops| ==> UopFits(bbl.uops[k], numRegs)
      requires LoadCount(bbl.uops) <= |loadAddrs| && StoreCount(bbl.uops) <= |storeAddrs|
      modifies this`decodeCycle, this`curCycle, this`curCycleIssuedUops, this`curCycleRFReads,
               this`lastStoreCommitCycle, this`lastStoreAddrCommitCycle,
               this`robRetired, this`loadQueueRetired, this`storeQueueRetired,
               regScoreboard, fwdArray
      ensures Valid()
      ensures BlockSimulated(bbl, env, timings, lastCommitCycle, decodeCycle, old(Start()), loadAddrs, storeAddrs)
      ensures lastStoreCommitCycle >= old(lastStoreCommitCycle)
      ensures lastStoreAddrCommitCycle >= old(lastStoreAddrCommitCycle)
      ensures curCycle >= old(curCycle)
    {
      ghost var b := Start();
      timings := [];
      lastCommitCycle := 0;
      var loadIdx := 0;
      var storeIdx := 0;
      var prevDecCycle := 0;
      var i := 0;
      BlockBegins(bbl, env);
      while i < |bbl.uops|
        invariant InBlock(bbl, env, timings, i, loadIdx, storeIdx, b)
        invariant lastCommitCycle == if i == 0 then 0 else timings[i - 1].commitCycle
      {
        var t;
        t, loadIdx, storeIdx := BlockStep(bbl, env, i, prevDecCycle, loadIdx, storeIdx, timings, b);
        prevDecCycle := bbl.uops[i].decCycle;
        timings := timings + [t];
        lastCommitCycle := t.commitCycle;
        i := i + 1;
      }
      BlockDone(bbl, env, timings, lastCommitCycle, loadIdx, storeIdx, b);
    }

    /** Wrong-path fetch after a mispredicted branch: up to `5*64/lineSize`
        lines from the address the branch did not go to, stopping after the
        first response that arrives after the block's last commit. */
    method WrongPathFetch(wrongPathAddr: Address, fetchCycle: nat, lastCommitCycle: nat, env: Collaborators)
      returns (lines: seq<Address>)
      requires Valid()
      ensures |lines| == WrongPathCount(fetchCycle, 0, 5 * 64 / lineSize, lastCommitCycle,
                                        env.wrongPathLatency, lineSize)
      ensures |lines| <= 5 * 64 / lineSize
      ensures 5 * 64 / lineSize > 0 ==> |lines| >= 1
      ensures lines == WrappedLineSeq(wrongPathAddr, lineSize, |lines|)
    {
      var maxLines := 5 * 64 / lineSize;
      var reqCycle: nat := fetchCycle;
      ghost var total := WrongPathCount(fetchCycle, 0, maxLines, lastCommitCycle, env.wrongPathLatency, lineSize);
      lines := [];
      var i := 0;
      while i < maxLines
        invariant i <= maxLines
        invariant total == i + WrongPathCount(reqCycle, i, maxLines, lastCommitCycle, env.wrongPathLatency, lineSize)
        invariant lines == WrappedLineSeq(wrongPathAddr, lineSize, i)
      {
        lines := lines + [Wrap64(wrongPathAddr + lineSize * i)];
        var respCycle := reqCycle + env.wrongPathLatency(i);
        if respCycle > lastCommitCycle {
          break;
        }
        reqCycle := respCycle + lineSize / FETCH_BYTES_PER_CYCLE;
        i := i + 1;
      }
    }

    /** Instruction fetch of the new block: one L1i access per line from the
        block's address up to its end, each adding its latency. */
    method FetchBbl(bblAddr: Address, bytes: nat, fetchCycle0: nat, env: Collaborators)
      returns (fetchCycle: nat, lines: seq<int>)
      requires Valid()
      ensures CoversBytes(|lines|, lineSize, bytes)
      ensures lines == LineSeq(bblAddr, lineSize, |lines|)
      ensures fetchCycle == fetchCycle0 + LatencySum(env.fetchLatency, |lines|)
    {
      fetchCycle := fetchCycle0;
      lines := [];
      var endAddr := bblAddr + bytes;
      var fetchAddr := bblAddr;
      while fetchAddr < endAddr
        invariant fetchAddr == bblAddr + lineSize * |lines|
        invariant |lines| > 0 ==> (|lines| - 1) * lineSize < bytes
        invariant lines == LineSeq(bblAddr, lineSize, |lines|)
        invariant fetchCycle == fetchCycle0 + LatencySum(env.fetchLatency, |lines|)
        decreases endAddr - fetchAddr
      {
        var fetchLat := env.fetchLatency(|lines|);
        fetchCycle := fetchCycle + fetchLat;
        lines := lines + [fetchAddr];
        fetchAddr := fetchAddr + lineSize;
      }
    }

    /** Branch resolution and fetch of the new block: a mispredicted branch
        costs the wrong-path fetches and restarts fetch at the block's last
        commit; then the new block's lines are fetched and decode waits for
        them. */
    method FrontEnd(bblAddr: Address, bytes: nat, lastCommitCycle: nat, env: Collaborators)
      returns (mispredicted: bool, wrongPath: seq<Address>, fetchStart: nat, fetchLines: seq<int>, fetchCycle: nat)
      requires Valid()
      modifies this`mispredBranches, this`branchPc, this`decodeCycle
      ensures Valid()
      ensures mispredicted == (old(branchPc) != 0 && !env.predictionCorrect)
      ensures mispredBranches == old(mispredBranches) + (if mispredicted then 1 else 0)
      ensures branchPc == 0
      ensures mispredicted ==> fetchStart == lastCommitCycle
      ensures !mispredicted ==> fetchStart == old(decodeCycle) - (DECODE_STAGE - FETCH_STAGE) && wrongPath == []
      ensures |wrongPath| <= 5 * 64 / lineSize
      ensures mispredicted && 5 * 64 / lineSize > 0 ==> |wrongPath| >= 1
      ensures CoversBytes(|fetchLines|, lineSize, bytes)
      ensures fetchLines == LineSeq(bblAddr, lineSize, |fetchLines|)
      ensures fetchCycle == fetchStart + LatencySum(env.fetchLatency, |fetchLines|)
      ensures decodeCycle == Max(old(decodeCycle) + 1, fetchCycle + (DECODE_STAGE - FETCH_STAGE))
    {
      fetchCycle := decodeCycle - (DECODE_STAGE - FETCH_STAGE);
      mispredicted := branchPc != 0 && !env.predictionCorrect;
      wrongPath := [];
      if mispredicted {
        mispredBranches := mispredBranches + 1;
        var wrongPathAddr := if branchTaken then branchNotTakenNpc else branchTakenNpc;
        wrongPath := WrongPathFetch(wrongPathAddr, fetchCycle, lastCommitCycle, env);
        fetchCycle := lastCommitCycle;
      }
      branchPc := 0;
      fetchStart := fetchCycle;
      fetchCycle, fetchLines := FetchBbl(bblAddr, bytes, fetchCycle, env);
      decodeCycle := decodeCycle + 1;
      var minFetchDecCycle := fetchCycle + (DECODE_STAGE - FETCH_STAGE);
      if minFetchDecCycle > decodeCycle {
        decodeCycle := minFetchDecCycle;
      }
    }

    /** The statistics counters advance once per simulated block. */
    method CountBlock(b: BblInfo)
      modifies this`instrs, this`uops, this`bbls, this`approxInstrs
      ensures instrs == old(instrs) + b.instrs && uops == old(uops) + |b.uops|
      ensures bbls == old(bbls) + 1 && approxInstrs == old(approxInstrs) + b.approxInstrs
    {
      instrs := instrs + b.instrs;
      uops := uops + |b.uops|;
      bbls := bbls + 1;
      approxInstrs := approxInstrs + b.approxInstrs;
    }

    /** The front end of a report, as `FrontEnd` states it: a misprediction
        restarts fetch at the block's last commit, otherwise fetch starts
        `DECODE_STAGE - FETCH_STAGE` cycles before the decode cycle the
        block left and there is no wrong path; the lines fetched are the
        consecutive lines that cover the next block's `bytes` from
        `bblAddr`, and fetch ends after the sum of their latencies. */
    predicate NextFetched(report: BblReport, bblAddr: Address, bytes: nat, env: Collaborators) {
      && (report.mispredicted ==> report.fetchStartCycle == report.lastCommitCycle)
      && (!report.mispredicted ==>
            report.fetchStartCycle == report.blockDecodeCycle - (DECODE_STAGE - FETCH_STAGE)
            && report.wrongPathLines == [])
      && lineSize > 0 && |report.wrongPathLines| <= 5 * 64 / lineSize
      && CoversBytes(|report.fetchLines|, lineSize, bytes)
      && report.fetchLines == LineSeq(bblAddr, lineSize, |report.fetchLines|)
      && report.fetchCycle == report.fetchStartCycle + LatencySum(env.fetchLatency, |report.fetchLines|)
    }

    /** Simulation of the buffered block `b` and fetch of the next one. */
    method SimulateBuffered(b: BblInfo, bblAddr: Address, bytes: nat, env: Collaborators) returns (report: BblReport)
      requires Valid()
      requires forall k :: 0 <= k < |b.uops| ==> UopFits(b.uops[k], numRegs)
      requires LoadCount(b.uops) <= |loadAddrs| && StoreCount(b.uops) <= |storeAddrs|
      modifies this`decodeCycle, this`curCycle, this`curCycleIssuedUops, this`curCycleRFReads,
               this`lastStoreCommitCycle, this`lastStoreAddrCommitCycle,
               this`robRetired, this`loadQueueRetired, this`storeQueueRetired,
               this`instrs, this`uops, this`bbls, this`approxInstrs,
               this`mispredBranches, this`branchPc,
               regScoreboard, fwdArray
      ensures Valid()
      ensures report.simulated && |report.timings| == |b.uops|
      ensures BlockSimulated(b, env, report.timings, report.lastCommitCycle, report.blockDecodeCycle,
                             old(Start()), loadAddrs, storeAddrs)
      // the block's statistics
      ensures instrs == old(instrs) + b.instrs && uops == old(uops) + |b.uops|
      ensures bbls == old(bbls) + 1 && approxInstrs == old(approxInstrs) + b.approxInstrs
      // branch resolution and fetch of the next block, as `FrontEnd` does them
      ensures report.mispredicted == (old(branchPc) != 0 && !env.predictionCorrect)
      ensures mispredBranches == old(mispredBranches) + (if report.mispredicted then 1 else 0)
      ensures branchPc == 0
      ensures NextFetched(report, bblAddr, bytes, env)
      ensures decodeCycle == Max(report.blockDecodeCycle + 1, report.fetchCycle + (DECODE_STAGE - FETCH_STAGE))
    {
      var timings, lastCommitCycle := RunUops(b, env);
      CountBlock(b);
      var blockDecodeCycle := decodeCycle;
      var mispredicted, wrongPath, fetchStart, fetchLines, fetchCycle :=
        FrontEnd(bblAddr, bytes, lastCommitCycle, env);
      report := BblReport(true, timings, lastCommitCycle, blockDecodeCycle, mispredicted, wrongPath,
                          fetchStart, fetchLines, fetchCycle);
    }

    /** `loads = stores = 0`: the recorded addresses are dropped. */
    method ClearAddrs()
      modifies this`loadAddrs, this`storeAddrs
      ensures loadAddrs == [] && storeAddrs == []
    {
      loadAddrs, storeAddrs := [], [];
    }

    /** The first block since the thread was scheduled is only buffered,
        and the addresses recorded before it are dropped. */
    method BufferFirst(bblInfo: BblInfo) returns (report: BblReport)
      modifies this`prevBbl, this`loadAddrs, this`storeAddrs
      ensures prevBbl == Some(bblInfo) && loadAddrs == [] && storeAddrs == []
      ensures !report.simulated && report.timings == []
    {
      prevBbl := Some(bblInfo);
      ClearAddrs();
      report := BblReport(false, [], 0, 0, false, [], 0, [], 0);
    }

    /** A block after the first: the buffered block is simulated, the new
        one buffered, and the addresses recorded for the old one dropped. */
    method SimulatePrev(bblAddr: Address, bblInfo: BblInfo, env: Collaborators) returns (report: BblReport)
      requires Valid()
      requires prevBbl.Some?
      requires && (forall k :: 0 <= k < |prevBbl.value.uops| ==> UopFits(prevBbl.value.uops[k], numRegs))
                 && LoadCount(prevBbl.value.uops) <= |loadAddrs|
                 && StoreCount(prevBbl.value.uops) <= |storeAddrs|
      modifies this`prevBbl, this`loadAddrs, this`storeAddrs,
               this`decodeCycle, this`curCycle, this`curCycleIssuedUops, this`curCycleRFReads,
               this`lastStoreCommitCycle, this`lastStoreAddrCommitCycle,
               this`robRetired, this`loadQueueRetired, this`storeQueueRetired,
               this`instrs, this`uops, this`bbls, this`approxInstrs,
               this`mispredBranches, this`branchPc,
               regScoreboard, fwdArray
      ensures Valid()
      ensures prevBbl == Some(bblInfo) && loadAddrs == [] && storeAddrs == []
      ensures report.simulated
      ensures var b := old(prevBbl).value;
                && BlockSimulated(b, env, report.timings, report.lastCommitCycle, report.blockDecodeCycle,
                                  old(Start()), old(loadAddrs), old(storeAddrs))
                && instrs == old(instrs) + b.instrs && uops == old(uops) + |b.uops|
                && bbls == old(bbls) + 1 && approxInstrs == old(approxInstrs) + b.approxInstrs
                && report.mispredicted == (old(branchPc) != 0 && !env.predictionCorrect)
                && mispredBranches == old(mispredBranches) + (if report.mispredicted then 1 else 0)
                && branchPc == 0
                && NextFetched(report, bblAddr, bblInfo.bytes, env)
                && decodeCycle == Max(report.blockDecodeCycle + 1, report.fetchCycle + (DECODE_STAGE - FETCH_STAGE))
    {
      var bbl := prevBbl.value;
      prevBbl := Some(bblInfo);
      report := SimulateBuffered(bbl, bblAddr, bblInfo.bytes, env);
      ClearAddrs();
    }

    /** `bbl(bblAddr, bblInfo)`: buffers the new block and simulates the one
        buffered before it (the first block of a thread is only buffered). */
    method Bbl(bblAddr: Address, bblInfo: BblInfo, env: Collaborators) returns (report: BblReport)
      requires Valid()
      requires prevBbl.Some? ==>
                 && (forall k :: 0 <= k < |prevBbl.value.uops| ==> UopFits(prevBbl.value.uops[k], numRegs))
                 && LoadCount(prevBbl.value.uops) <= |loadAddrs|
                 && StoreCount(prevBbl.value.uops) <= |storeAddrs|
      modifies this`prevBbl, this`loadAddrs, this`storeAddrs,
               this`decodeCycle, this`curCycle, this`curCycleIssuedUops, this`curCycleRFReads,
               this`lastStoreCommitCycle, this`lastStoreAddrCommitCycle,
               this`robRetired, this`loadQueueRetired, this`storeQueueRetired,
               this`instrs, this`uops, this`bbls, this`approxInstrs,
               this`mispredBranches, this`branchPc,
               regScoreboard, fwdArray
      ensures Valid()
      ensures prevBbl == Some(bblInfo) && loadAddrs == [] && storeAddrs == []
      ensures report.simulated == old(prevBbl).Some?
      ensures old(prevBbl).None? ==> Timing() == old(Timing()) && unchanged(regScoreboard) && unchanged(fwdArray)
      ensures old(prevBbl).Some? ==>
                var b := old(prevBbl).value;
                && BlockSimulated(b, env, report.timings, report.lastCommitCycle, report.blockDecodeCycle,
                                  old(Start()), old(loadAddrs), old(storeAddrs))
                && instrs == old(instrs) + b.instrs && uops == old(uops) + |b.uops|
                && bbls == old(bbls) + 1 && approxInstrs == old(approxInstrs) + b.approxInstrs
                && report.mispredicted == (old(branchPc) != 0 && !env.predictionCorrect)
                && mispredBranches == old(mispredBranches) + (if report.mispredicted then 1 else 0)
                && branchPc == 0
                && NextFetched(report, bblAddr, bblInfo.bytes, env)
                && decodeCycle == Max(report.blockDecodeCycle + 1, report.fetchCycle + (DECODE_STAGE - FETCH_STAGE))
    {
      if prevBbl.None? {
        report := BufferFirst(bblInfo);
      } else {
        report := SimulatePrev(bblAddr, bblInfo, env);
      }
    }
  }
}
