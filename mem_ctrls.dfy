/** zsim's main-memory timing models: a fixed-latency memory
    (`SimpleMemory`), the fixed-latency memory that also writes a memory
    trace for offloading studies (`MemoryTraces`), and the M/D/1 queueing
    memory whose latency follows the offered load (`MD1Memory`). */
module MemCtrls {
  import opened Common
  import opened MemReqs

  /** What `access` gives back: the state written through `*req.state` and
      the response cycle it returns. */
  datatype Response = Response(state: MESIState, respCycle: nat)

  /** `SimpleMemory::access`: every request is answered `latency` cycles
      after it was issued; an unknown request type panics, and so does the
      assertion that the `uint64_t` answer comes strictly later, which a
      zero latency or a sum past 2^64 - 1 (wrapping around) violates. */
  function SimpleAccess(latency: U64, req: MemReq): (r: Result<Response>)
    ensures r.Ok? <==> !req.kind.OtherType? && latency > 0 && req.cycle + latency < TWO_64
    ensures r.Ok? ==> r.value.state == GrantedState(req).value
    ensures r.Ok? ==> r.value.respCycle == req.cycle + latency > req.cycle
  {
    match GrantedState(req)
    case None => Fail("panic: unknown request type")
    case Some(st) =>
      var respCycle := Wrap64(req.cycle + latency);
      Wrap64Past(req.cycle, latency);
      if respCycle <= req.cycle then Fail("assertion respCycle > req.cycle")
      else Ok(Response(st, respCycle))
  }

  // ---------------------------------------------------------------------
  // MemoryTraces

  /** One line written to `tracefile`: thread, core, instructions executed
      since that core's previous traced access, `P`, `L` or `S`, and the line
      address. */
  datatype TraceLine = TraceLine(thread: int, core: nat, instrs: int, kind: char, lineAddr: Address)

  /** A demand access (neither `PREFETCH` nor `PREFETCH_TRACE`) is one more
      memory instruction to subtract from the core's instruction count. */
  function DemandBump(req: MemReq): (b: nat)
    ensures b == 0 <==> req.prefetch || req.prefetchTrace
    ensures b <= 1
  {
    if !req.prefetchTrace && !req.prefetch then 1 else 0
  }

  /** The letter of a trace line: prefetches are `P`, demand reads `L` and
      demand writes `S`. */
  function TraceKind(req: MemReq): (k: char)
    ensures k == 'P' <==> req.prefetch || req.prefetchTrace
    ensures k == 'L' <==> !(req.prefetch || req.prefetchTrace) && req.kind != GETX
    ensures k == 'S' <==> !(req.prefetch || req.prefetchTrace) && req.kind == GETX
  {
    if req.prefetchTrace || req.prefetch then 'P'
    else if req.kind == GETX then 'S' else 'L'
  }

  /** Settling a core's pending instruction count `pinstr` against the
      memory instructions `sub` still to be subtracted: what is reported is
      never negative, whatever is left to subtract is never negative, at
      most one of them is nonzero, and their difference is kept. These four
      facts determine the pair. */
  function Settle(pinstr: int, sub: int): (r: (int, int))
    ensures r.0 >= 0 && r.1 >= 0
    ensures r.0 == 0 || r.1 == 0
    ensures r.0 - r.1 == pinstr - sub
  {
    if pinstr - sub <= 0 then (0, sub - pinstr) else (pinstr - sub, 0)
  }

  /** Instructions reported for core `c` in the trace lines `t`. */
  function Emitted(t: seq<TraceLine>, c: nat): int
  {
    if t == [] then 0
    else Emitted(t[..|t| - 1], c) + (if t[|t| - 1].core == c then t[|t| - 1].instrs else 0)
  }

  lemma EmittedAppend(t: seq<TraceLine>, x: TraceLine, c: nat)
    ensures Emitted(t + [x], c) == Emitted(t, c) + (if x.core == c then x.instrs else 0)
  {
    assert (t + [x])[..|t|] == t;
  }

  /** The message of an `offloadInfo`. */
  datatype OffloadMsg = Offloading | InstrCount | OtherMsg

  /** `offloadInfo`: the message, the new trace switch for `OFFLOADING`,
      and the core, instruction count and thread for `INSTR_COUNT`. */
  datatype OffloadInfo = OffloadInfo(msg: OffloadMsg, content: int, coreIdx: nat, interInstrs: int, threadIdx: int)

  class MemoryTraces {
    const latency: U64
    const maxCores: nat
    /** Per core (indices 0 to `MAX_CORES`): instructions since the last
        traced access, memory instructions still to subtract, current thread. */
    const previousInstr: array<int>
    const substract: array<int>
    const threadIdx: array<int>

    var printTrace: int
    var totalInstructions: int
    /** The lines written to `tracefile`, in order. */
    var trace: seq<TraceLine>

    /** Per core: instructions reported by `offload`, and demand accesses
        that were traced. */
    ghost var reported: seq<int>
    ghost var demands: seq<int>

    ghost predicate Valid()
      reads this, previousInstr, substract
    {
      && previousInstr.Length == maxCores + 1
      && substract.Length == maxCores + 1
      && threadIdx.Length == maxCores + 1
      && previousInstr != substract && previousInstr != threadIdx && substract != threadIdx
      && |reported| == maxCores + 1 && |demands| == maxCores + 1
      // every reported instruction is in the trace, still pending, or
      // cancelled by a traced demand access
      && forall c :: 0 <= c <= maxCores ==>
           Emitted(trace, c) + previousInstr[c] - substract[c] == reported[c] - demands[c]
    }

    constructor (lat: U64, cores: nat)
      ensures Valid() && latency == lat && maxCores == cores
      ensures fresh(previousInstr) && fresh(substract) && fresh(threadIdx)
      ensures forall c :: 0 <= c <= maxCores ==> previousInstr[c] == 0 && substract[c] == 0 && threadIdx[c] == 0
      ensures printTrace == 0 && totalInstructions == 0 && trace == []
    {
      latency, maxCores := lat, cores;
      previousInstr := new int[cores + 1](_ => 0);
      substract := new int[cores + 1](_ => 0);
      threadIdx := new int[cores + 1](_ => 0);
      printTrace, totalInstructions, trace := 0, 0, [];
      reported := seq(cores + 1, _ => 0);
      demands := seq(cores + 1, _ => 0);
    }

    /** Whether `access(req)` does the trace accounting: a demand or
        prefetch read or write, not an instruction fetch, while tracing is on. */
    ghost predicate Traced(req: MemReq)
      reads this
    {
      req.coreId <= maxCores && req.kind in {GETS, GETX} && printTrace != 0 && !req.ifetch
    }

    /** The accounting of a traced access (`print_trace` on, not `IFETCH`):
        a demand access adds one memory instruction to subtract, the pending
        instructions are settled against them, a trace line carries the
        settled count and the pending count restarts from 0. */
    method Account(req: MemReq)
      requires Valid() && req.coreId <= maxCores && req.kind in {GETS, GETX}
      modifies previousInstr, substract, this`trace, this`demands
      ensures Valid()
      ensures var c := req.coreId;
              var s := Settle(old(previousInstr[c]), old(substract[c]) + DemandBump(req));
              && previousInstr[..] == old(previousInstr[..])[c := 0]
              && substract[..] == old(substract[..])[c := s.1]
              && trace == old(trace) + [TraceLine(threadIdx[c], c, s.0, TraceKind(req), req.lineAddr)]
    {
      var c := req.coreId;
      var sub := substract[c];
      if !req.prefetchTrace && !req.prefetch {
        sub := sub + 1;
      }
      var pinstr := previousInstr[c];
      if pinstr - sub <= 0 {
        sub := sub - pinstr;
        pinstr := 0;
      } else {
        pinstr := pinstr - sub;
        sub := 0;
      }
      var line := TraceLine(threadIdx[c], c, pinstr, TraceKind(req), req.lineAddr);
      ghost var before := trace;
      substract[c] := sub;
      trace := trace + [line];
      previousInstr[c] := 0;
      demands := demands[c := demands[c] + DemandBump(req)];
      forall k | 0 <= k <= maxCores
        ensures Emitted(trace, k) + previousInstr[k] - substract[k] == reported[k] - demands[k]
      {
        EmittedAppend(before, line, k);
        assert old(Emitted(trace, k) + previousInstr[k] - substract[k] == reported[k] - demands[k]);
      }
    }

    /** `MemoryTraces::access`: answers like `SimpleMemory`, after the trace
        accounting when the access is traced; a core beyond `MAX_CORES`
        fails the assertion before anything happens, and the response
        cycle is the `uint64_t` sum, asserted to come strictly later. */
    method Access(req: MemReq) returns (r: Result<Response>)
      requires Valid()
      modifies previousInstr, substract, this`trace, this`demands
      ensures Valid()
      ensures r.Ok? <==> req.coreId <= maxCores && !req.kind.OtherType? && latency > 0 && req.cycle + latency < TWO_64
      ensures r.Ok? ==> r.value == Response(GrantedState(req).value, req.cycle + latency)
      ensures !Traced(req) ==>
                && unchanged(previousInstr, substract) && trace == old(trace) && demands == old(demands)
      ensures Traced(req) ==>
                var c := req.coreId;
                var s := Settle(old(previousInstr[c]), old(substract[c]) + DemandBump(req));
                && previousInstr[..] == old(previousInstr[..])[c := 0]
                && substract[..] == old(substract[..])[c := s.1]
                && trace == old(trace) + [TraceLine(threadIdx[c], c, s.0, TraceKind(req), req.lineAddr)]
    {
      if req.coreId > maxCores {
        return Fail("assertion req.coreId <= MAX_CORES");
      }
      var st := GrantedState(req);
      if st.None? {
        return Fail("panic: unknown request type");
      }
      if (req.kind == GETS || req.kind == GETX) && printTrace != 0 && !req.ifetch {
        Account(req);
      }
      var respCycle := Wrap64(req.cycle + latency);
      Wrap64Past(req.cycle, latency);
      if respCycle <= req.cycle {
        return Fail("assertion respCycle > req.cycle");
      }
      r := Ok(Response(st.value, respCycle));
    }

    /** `MemoryTraces::offload`: `OFFLOADING` switches tracing, `INSTR_COUNT`
        credits instructions to a core and records its thread; any other
        message is ignored. Returns 0; an `INSTR_COUNT` for a core past
        `MAX_CORES` indexes outside the per-core arrays, which the model
        reports as a failure that changes nothing. */
    method Offload(info: OffloadInfo) returns (r: Result<nat>)
      requires Valid()
      modifies this`printTrace, this`totalInstructions, previousInstr, threadIdx, this`reported
      ensures Valid()
      ensures r.Fail? <==> info.msg == InstrCount && info.coreIdx > maxCores
      ensures r.Ok? ==> r.value == 0
      ensures r.Fail? ==>
                && printTrace == old(printTrace) && totalInstructions == old(totalInstructions)
                && reported == old(reported) && unchanged(previousInstr, threadIdx)
      ensures info.msg == Offloading ==>
                && printTrace == info.content && totalInstructions == old(totalInstructions)
                && unchanged(previousInstr, threadIdx)
      ensures info.msg == InstrCount && info.coreIdx <= maxCores ==>
                var c := info.coreIdx;
                && printTrace == old(printTrace)
                && previousInstr[..] == old(previousInstr[..])[c := old(previousInstr[c]) + info.interInstrs]
                && totalInstructions == old(totalInstructions) + info.interInstrs
                && threadIdx[..] == old(threadIdx[..])[c := info.threadIdx]
      ensures info.msg == OtherMsg ==>
                && printTrace == old(printTrace) && totalInstructions == old(totalInstructions)
                && unchanged(previousInstr, threadIdx)
    {
      if info.msg == Offloading {
        printTrace := info.content;
      } else if info.msg == InstrCount {
        if info.coreIdx > maxCores {
          return Fail("index coreIdx out of range");
        }
        var c := info.coreIdx;
        previousInstr[c] := previousInstr[c] + info.interInstrs;
        totalInstructions := totalInstructions + info.interInstrs;
        threadIdx[c] := info.threadIdx;
        reported := reported[c := reported[c] + info.interInstrs];
      }
      r := Ok(0);
    }
  }

  // ---------------------------------------------------------------------
  // MD1Memory

  /** The peak request rate in requests per cycle, as the `double` the
      constructor computes: infinite when the clock rate or the request size
      is zero. */
  datatype PeakRate = Finite(perCycle: real) | Unbounded

  /** `maxRequestsPerCycle = (megabytes / megacycles) / requestSize` in
      `double` arithmetic, and the assertion that it is positive: a zero
      bandwidth gives 0 (or NaN, 0/0) and fails it; otherwise a zero divisor
      gives an infinite rate, which passes. */
  function PeakRequestRate(requestSize: nat, megacyclesPerSecond: nat, megabytesPerSecond: nat): (r: Result<PeakRate>)
    ensures r.Fail? <==> megabytesPerSecond == 0
    ensures r == Ok(Unbounded) <==> megabytesPerSecond > 0 && (megacyclesPerSecond == 0 || requestSize == 0)
    ensures r.Ok? && r.value.Finite? ==>
              && r.value.perCycle > 0.0
              && r.value.perCycle * (megacyclesPerSecond as real) * (requestSize as real) == megabytesPerSecond as real
  {
    if megabytesPerSecond == 0 then Fail("assertion maxRequestsPerCycle > 0.0")
    else if megacyclesPerSecond == 0 || requestSize == 0 then Ok(Unbounded)
    else
      var bytesPerCycle := (megabytesPerSecond as real) / (megacyclesPerSecond as real);
      Ok(Finite(bytesPerCycle / (requestSize as real)))
  }

  /** A usable peak rate: positive, or infinite. */
  predicate PositiveRate(rate: PeakRate) {
    rate.Finite? ==> rate.perCycle > 0.0
  }

  /** Offered load of a phase: smoothed requests per cycle relative to the
      peak request rate, clamped at 0.95; against an infinite peak rate the
      load is 0. */
  function PhaseLoad(smoothed: real, phaseCycles: nat, rate: PeakRate): (load: real)
    requires smoothed >= 0.0 && phaseCycles > 0 && PositiveRate(rate)
    ensures 0.0 <= load <= 0.95
    ensures rate.Unbounded? ==> load == 0.0
    ensures rate.Finite? ==> load * (phaseCycles as real) * rate.perCycle <= smoothed
    ensures rate.Finite? && load < 0.95 ==> load * (phaseCycles as real) * rate.perCycle == smoothed
  {
    if rate.Unbounded? then 0.0
    else
      var rpc := smoothed / (phaseCycles as real);
      var load := rpc / rate.perCycle;
      assert rpc >= 0.0 && load >= 0.0;
      assert load * rate.perCycle == rpc && rpc * (phaseCycles as real) == smoothed;
      if load > 0.95 then 0.95 else load
  }

  /** The latency multiplier of an M/D/1 queue (Pollaczek–Khinchine). */
  function Multiplier(load: real): real
    requires 0.0 <= load <= 0.95
  {
    1.0 + 0.5 * load / (1.0 - load)
  }

  /** Latency at a given load: the zero-load latency scaled by the M/D/1
      multiplier and truncated to whole cycles. It is never below the
      zero-load latency, equals it at zero load, and is at most 10.5 times it. */
  function LoadedLatency(load: real, zeroLoadLatency: nat): (lat: nat)
    requires 0.0 <= load <= 0.95
    ensures zeroLoadLatency <= lat <= (21 * zeroLoadLatency) / 2
    ensures load == 0.0 ==> lat == zeroLoadLatency
  {
    MultiplierBounds(load);
    var z := zeroLoadLatency as real;
    var x := Multiplier(load) * z;
    ScaleBounds(Multiplier(load), z);
    FloorMonotone(z, x);
    FloorMonotone(x, 10.5 * z);
    TenAndHalfFloor(zeroLoadLatency);
    x.Floor
  }

  lemma ScaleBounds(m: real, z: real)
    requires 1.0 <= m <= 10.5 && z >= 0.0
    ensures z <= m * z <= 10.5 * z
  {
    NonNegativeProduct(m - 1.0, z);
    NonNegativeProduct(10.5 - m, z);
  }

  lemma NonNegativeProduct(a: real, b: real)
    requires a >= 0.0 && b >= 0.0
    ensures a * b >= 0.0
  {
  }

  lemma TenAndHalfFloor(n: nat)
    ensures (10.5 * (n as real)).Floor == (21 * n) / 2
  {
    var k, r := (21 * n) / 2, (21 * n) % 2;
    assert 10.5 * (n as real) == (k as real) + (r as real) / 2.0;
  }

  lemma FloorMonotone(a: real, b: real)
    requires a <= b
    ensures a.Floor <= b.Floor
  {
  }

  lemma {:induction false} MultiplierBounds(load: real)
    requires 0.0 <= load <= 0.95
    ensures 1.0 <= Multiplier(load) <= 10.5
    ensures load == 0.0 ==> Multiplier(load) == 1.0
  {
    var d := 1.0 - load;
    var q := load / d;
    assert q * d == load;
  }

  /** A higher load never gives a lower latency. */
  lemma {:induction false} LoadedLatencyMonotone(l1: real, l2: real, zeroLoadLatency: nat)
    requires 0.0 <= l1 <= l2 <= 0.95
    ensures LoadedLatency(l1, zeroLoadLatency) <= LoadedLatency(l2, zeroLoadLatency)
  {
    // l / (1 - l) = 1 / (1 - l) - 1, and 1 / (1 - l) grows with l
    var d1, d2 := 1.0 - l1, 1.0 - l2;
    var q1, q2 := l1 / d1, l2 / d2;
    assert q1 == 1.0 / d1 - 1.0 && q2 == 1.0 / d2 - 1.0;
    assert q1 <= q2;
    var z := zeroLoadLatency as real;
    assert Multiplier(l1) * z <= Multiplier(l2) * z;
    FloorMonotone(Multiplier(l1) * z, Multiplier(l2) * z);
  }

  /** Cycles covered by the phases since the last update, as the `uint32_t`
      the source computes. */
  function PhaseCycles(numPhases: nat, lastPhase: nat, phaseLength: nat): nat
  {
    Wrap32((numPhases - lastPhase) * phaseLength)
  }

  /** Whether `access` recomputes the latency: a new phase has begun and
      the phases since the last update cover at least 10000 cycles. */
  predicate Recomputes(numPhases: nat, lastPhase: nat, phaseLength: nat)
  {
    numPhases > lastPhase && PhaseCycles(numPhases, lastPhase, phaseLength) >= 10000
  }

  /** Whether a request counts as a real access in the current phase: clean
      writebacks (`PUTS`) are treated as if they never happened. */
  predicate CountedAccess(req: MemReq)
  {
    req.kind in {PUTX, GETS, GETX}
  }

  class MD1Memory {
    const zeroLoadLatency: nat
    const maxRate: PeakRate
    var lastPhase: nat
    var smoothedPhaseAccesses: real
    var curPhaseAccesses: nat
    var curLatency: nat

    ghost predicate Valid()
      reads this
    {
      PositiveRate(maxRate) && smoothedPhaseAccesses >= 0.0 && curLatency >= zeroLoadLatency
    }

    /** The constructor past its assertion, which holds exactly when the
        bandwidth is not zero (see `PeakRequestRate`). */
    constructor (requestSize: nat, megacyclesPerSecond: nat, megabytesPerSecond: nat, zll: nat)
      requires megabytesPerSecond > 0
      ensures Valid() && zeroLoadLatency == zll
      ensures PeakRequestRate(requestSize, megacyclesPerSecond, megabytesPerSecond) == Ok(maxRate)
      ensures lastPhase == 0 && smoothedPhaseAccesses == 0.0 && curPhaseAccesses == 0 && curLatency == zll
    {
      maxRate := PeakRequestRate(requestSize, megacyclesPerSecond, megabytesPerSecond).value;
      zeroLoadLatency := zll;
      lastPhase := 0;
      smoothedPhaseAccesses := 0.0;
      curPhaseAccesses := 0;
      curLatency := zll;
    }

    /** Construction with the assertion as an outcome: it fails exactly when
        the bandwidth is zero, and otherwise yields a fresh memory at phase
        0 with the computed peak rate. */
    static method Create(requestSize: nat, megacyclesPerSecond: nat, megabytesPerSecond: nat, zll: nat)
      returns (r: Result<MD1Memory>)
      ensures r.Fail? <==> megabytesPerSecond == 0
      ensures r.Ok? ==>
                && fresh(r.value) && r.value.Valid() && r.value.zeroLoadLatency == zll
                && PeakRequestRate(requestSize, megacyclesPerSecond, megabytesPerSecond) == Ok(r.value.maxRate)
                && r.value.lastPhase == 0 && r.value.curPhaseAccesses == 0 && r.value.curLatency == zll
    {
      if megabytesPerSecond == 0 {
        return Fail("assertion maxRequestsPerCycle > 0.0");
      }
      var m := new MD1Memory(requestSize, megacyclesPerSecond, megabytesPerSecond, zll);
      r := Ok(m);
    }

    /** `updateLatency`: skipped for short phases; otherwise it halves the
        weight of the history, derives the clamped load and the M/D/1
        latency from it, and starts a new phase. */
    method UpdateLatency(numPhases: nat, phaseLength: nat)
      requires Valid()
      modifies this`lastPhase, this`smoothedPhaseAccesses, this`curPhaseAccesses, this`curLatency
      ensures Valid()
      ensures PhaseCycles(numPhases, old(lastPhase), phaseLength) < 10000 ==>
                && lastPhase == old(lastPhase) && smoothedPhaseAccesses == old(smoothedPhaseAccesses)
                && curPhaseAccesses == old(curPhaseAccesses) && curLatency == old(curLatency)
      ensures PhaseCycles(numPhases, old(lastPhase), phaseLength) >= 10000 ==>
                && smoothedPhaseAccesses == (old(curPhaseAccesses) as real) * 0.5 + old(smoothedPhaseAccesses) * 0.5
                && curLatency == LoadedLatency(PhaseLoad(smoothedPhaseAccesses,
                                                         PhaseCycles(numPhases, old(lastPhase), phaseLength),
                                                         maxRate), zeroLoadLatency)
                && curPhaseAccesses == 0 && lastPhase == numPhases
    {
      var phaseCycles := Wrap32((numPhases - lastPhase) * phaseLength);
      if phaseCycles < 10000 {
        return;
      }
      smoothedPhaseAccesses := (curPhaseAccesses as real) * 0.5 + smoothedPhaseAccesses * 0.5;
      var load := PhaseLoad(smoothedPhaseAccesses, phaseCycles, maxRate);
      curLatency := LoadedLatency(load, zeroLoadLatency);
      curPhaseAccesses := 0;
      lastPhase := numPhases;
    }

    /** `MD1Memory::access`: first brings the latency up to date with the
        global phase counter, then answers with the current latency; clean
        writebacks are answered at once and are not counted. The response
        cycle is the unchecked `uint64_t` sum, which wraps around. */
    method Access(req: MemReq, numPhases: nat, phaseLength: nat) returns (r: Result<Response>)
      requires Valid()
      modifies this`lastPhase, this`smoothedPhaseAccesses, this`curPhaseAccesses, this`curLatency
      ensures Valid()
      ensures lastPhase >= old(lastPhase)
      ensures !Recomputes(numPhases, old(lastPhase), phaseLength) ==>
                && lastPhase == old(lastPhase) && smoothedPhaseAccesses == old(smoothedPhaseAccesses)
                && curLatency == old(curLatency)
                && curPhaseAccesses == old(curPhaseAccesses) + (if CountedAccess(req) then 1 else 0)
      ensures Recomputes(numPhases, old(lastPhase), phaseLength) ==>
                && smoothedPhaseAccesses == (old(curPhaseAccesses) as real) * 0.5 + old(smoothedPhaseAccesses) * 0.5
                && curLatency == LoadedLatency(PhaseLoad(smoothedPhaseAccesses,
                                                         PhaseCycles(numPhases, old(lastPhase), phaseLength),
                                                         maxRate), zeroLoadLatency)
                && lastPhase == numPhases
                && curPhaseAccesses == (if CountedAccess(req) then 1 else 0)
      ensures r.Ok? <==> !req.kind.OtherType?
      ensures r.Ok? ==>
                r.value == Response(GrantedState(req).value,
                                    Wrap64(req.cycle + (if req.kind == PUTS then 0 else curLatency)))
    {
      if numPhases > lastPhase {
        UpdateLatency(numPhases, phaseLength);
      }
      match req.kind {
        case PUTX =>
          curPhaseAccesses := curPhaseAccesses + 1;
          r := Ok(Response(I, Wrap64(req.cycle + curLatency)));
        case PUTS =>
          r := Ok(Response(I, Wrap64(req.cycle)));
        case GETS =>
          curPhaseAccesses := curPhaseAccesses + 1;
          r := Ok(Response(if req.noExcl then S else E, Wrap64(req.cycle + curLatency)));
        case GETX =>
          curPhaseAccesses := curPhaseAccesses + 1;
          r := Ok(Response(M, Wrap64(req.cycle + curLatency)));
        case OtherType(_) =>
          r := Fail("panic: unknown request type");
      }
    }
  }
}
