/** ramulator's trace-driven CPU model (`Processor.h`, `Processor.cpp`):
    the per-core request queue filled from a shared trace, the circular
    instruction window of an out-of-order core, and the per-tick behaviour
    of the in-order and out-of-order cores. */
module RamulatorCpu {
  import opened Common
  import opened TraceParsers

  // ---------------------------------------------------------------------
  // SqueduleQueue

  /** `SqueduleQueue`: the requests a core still has to issue, as parallel
      deques, and their number. */
  class SqueduleQueue {
    var bubbleCnt: seq<int>
    var reqAddr: seq<int>
    var memoryRqstSent: seq<bool>
    var size: seq<nat>
    var reqType: seq<ReqType>
    var numberInstructionsInQueue: int

    /** The count is the length of the three deques that pushes and pops
        keep in step. */
    ghost predicate Valid()
      reads this
    {
      numberInstructionsInQueue == |bubbleCnt| == |reqAddr| == |reqType|
    }

    constructor ()
      ensures Valid()
      ensures bubbleCnt == [] && reqAddr == [] && memoryRqstSent == [] && size == [] && reqType == []
      ensures numberInstructionsInQueue == 0
    {
      bubbleCnt, reqAddr, memoryRqstSent, size, reqType := [], [], [], [], [];
      numberInstructionsInQueue := 0;
    }

    /** `is_empty`: the count is zero, that is, no request is queued. */
    predicate IsEmpty()
      reads this
      ensures Valid() ==> (IsEmpty() <==> bubbleCnt == [] && reqAddr == [] && reqType == [])
    {
      numberInstructionsInQueue == 0
    }

    /** The pushes of `Processor::Processor` when it distributes a trace
        over the cores. */
    method PushBack(bubbles: int, addr: int, t: ReqType)
      requires Valid()
      modifies this
      ensures Valid()
      ensures bubbleCnt == old(bubbleCnt) + [bubbles] && reqAddr == old(reqAddr) + [addr]
      ensures reqType == old(reqType) + [t]
      ensures memoryRqstSent == old(memoryRqstSent) && size == old(size)
      ensures numberInstructionsInQueue == old(numberInstructionsInQueue) + 1
    {
      bubbleCnt := bubbleCnt + [bubbles];
      reqAddr := reqAddr + [addr];
      reqType := reqType + [t];
      numberInstructionsInQueue := numberInstructionsInQueue + 1;
    }

    /** `pop_front`: nothing happens on an empty queue; otherwise the front
        request leaves the three deques together and the count drops by
        one. `memory_rqst_sent` and `size` are not touched. */
    method PopFront()
      requires Valid()
      modifies this
      ensures Valid()
      ensures old(IsEmpty()) ==> bubbleCnt == old(bubbleCnt) && reqAddr == old(reqAddr)
                                 && reqType == old(reqType)
                                 && numberInstructionsInQueue == old(numberInstructionsInQueue)
      ensures !old(IsEmpty()) ==> bubbleCnt == old(bubbleCnt)[1..] && reqAddr == old(reqAddr)[1..]
                                  && reqType == old(reqType)[1..]
                                  && numberInstructionsInQueue == old(numberInstructionsInQueue) - 1
      ensures memoryRqstSent == old(memoryRqstSent) && size == old(size)
    {
      if !IsEmpty() {
        bubbleCnt := bubbleCnt[1..];
        reqAddr := reqAddr[1..];
        reqType := reqType[1..];
        numberInstructionsInQueue := numberInstructionsInQueue - 1;
      }
    }
  }

  // ---------------------------------------------------------------------
  // Window

  /** One window entry: whether the instruction may retire, and the
      address it waits for (-1 for a non-memory instruction). */
  datatype Entry = Entry(ready: bool, addr: int)

  /** The number of entries `retire` removes from the front of `c`: the
      leading ready entries, at most `limit` of them. */
  function ReadyPrefix(c: seq<Entry>, limit: nat): (n: nat)
    ensures n <= limit && n <= |c|
  {
    if limit == 0 || c == [] || !c[0].ready then 0 else 1 + ReadyPrefix(c[1..], limit - 1)
  }

  /** What `retire` removes is exactly the longest run of ready entries at
      the front, cut at `limit`: every entry it takes is ready, and it
      stops early only at an entry that is not. */
  lemma {:induction false} ReadyPrefixSpec(c: seq<Entry>, limit: nat)
    ensures forall k :: 0 <= k < ReadyPrefix(c, limit) ==> c[k].ready
    ensures ReadyPrefix(c, limit) < limit && ReadyPrefix(c, limit) < |c| ==> !c[ReadyPrefix(c, limit)].ready
    decreases limit
  {
    if limit != 0 && c != [] && c[0].ready {
      ReadyPrefixSpec(c[1..], limit - 1);
      forall k | 0 <= k < ReadyPrefix(c, limit)
        ensures c[k].ready
      {
        if 0 < k {
          assert c[k] == c[1..][k - 1];
        }
      }
    }
  }

  /** The masked comparison of `set_ready`: both addresses as 64-bit
      patterns, and the `int` mask sign-extended to 64 bits. */
  predicate SameBlock(a: int, b: int, mask: int) {
    BitAnd(Wrap64(a), Wrap64(mask)) == BitAnd(Wrap64(b), Wrap64(mask))
  }

  /** The bitwise and of two naturals. */
  function BitAnd(a: nat, b: nat): nat
  {
    if a == 0 || b == 0 then 0
    else 2 * BitAnd(a / 2, b / 2) + (if a % 2 == 1 && b % 2 == 1 then 1 else 0)
  }

  /** One entry after `set_ready(addr, mask)` has looked at it. */
  function Mark(e: Entry, addr: int, mask: int): Entry {
    Entry(e.ready || SameBlock(e.addr, addr, mask), e.addr)
  }

  /** The window contents after `set_ready`: each entry marked, in place. */
  function MarkBlock(c: seq<Entry>, addr: int, mask: int): (m: seq<Entry>)
    ensures |m| == |c|
  {
    if c == [] then [] else [Mark(c[0], addr, mask)] + MarkBlock(c[1..], addr, mask)
  }

  /** The `load` entries of a ring of 128 slots that start at slot `tail`. */
  function Ring(ready: seq<bool>, addrs: seq<int>, tail: nat, load: nat): (c: seq<Entry>)
    requires |ready| == 128 && |addrs| == 128 && load <= 128
    ensures |c| == load
  {
    if load == 0 then []
    else Ring(ready, addrs, tail, load - 1) + [Entry(ready[(tail + load - 1) % 128], addrs[(tail + load - 1) % 128])]
  }

  /** The instruction window of an out-of-order core: a ring of `depth`
      slots holding `load` entries from `tail` on, new entries going in at
      `head`. */
  class Window {
    const ipc: nat := 4
    const depth: nat := 128
    var load: nat
    var head: nat
    var tail: nat
    const readyList: array<bool>
    const addrList: array<int>

    ghost predicate Valid()
      reads this
    {
      && readyList.Length == depth && addrList.Length == depth
      && load <= depth && head < depth && tail < depth
      && head == (tail + load) % 128
    }

    /** The entries in flight, oldest first. */
    ghost function Contents(): seq<Entry>
      requires Valid()
      reads this, readyList, addrList
    {
      Ring(readyList[..], addrList[..], tail, load)
    }

    /** `Window()`: an empty window of 128 slots that retires up to 4
        entries per cycle, every address slot holding -1. */
    constructor ()
      ensures Valid() && fresh(readyList) && fresh(addrList)
      ensures load == 0 && head == 0 && tail == 0
      ensures Contents() == []
      ensures forall j :: 0 <= j < depth ==> !readyList[j] && addrList[j] == -1
    {
      load, head, tail := 0, 0, 0;
      readyList := new bool[128](_ => false);
      addrList := new int[128](_ => -1);
    }

    /** `is_full`. */
    predicate IsFull()
      requires Valid()
      reads this, readyList, addrList
      ensures IsFull() <==> |Contents()| == depth
    {
      load == depth
    }

    /** `is_empty`. */
    predicate IsEmpty()
      requires Valid()
      reads this, readyList, addrList
      ensures IsEmpty() <==> Contents() == []
    {
      load == 0
    }

    /** `insert`: the entry goes in at `head`, which moves on by one slot;
        callers insert only into a window that is not full. */
    method Insert(ready: bool, addr: int)
      requires Valid() && load < depth
      modifies this, readyList, addrList
      ensures Valid()
      ensures Contents() == old(Contents()) + [Entry(ready, addr)]
      ensures tail == old(tail) && head == (old(head) + 1) % 128 && load == old(load) + 1
      ensures readyList[..] == old(readyList[..])[old(head) := ready]
      ensures addrList[..] == old(addrList[..])[old(head) := addr]
    {
      ghost var r, a := readyList[..], addrList[..];
      ghost var t, l := tail, load;
      RingAppend(r, a, t, l, ready, addr);
      ghost var h := head;
      readyList[head] := ready;
      addrList[head] := addr;
      head := (head + 1) % 128;
      load := load + 1;
      InsertSlots(t, l, h, head, load);
      assert readyList[..] == r[(t + l) % 128 := ready] && addrList[..] == a[(t + l) % 128 := addr];
      assert Contents() == Ring(r[(t + l) % 128 := ready], a[(t + l) % 128 := addr], t, l + 1);
    }

    /** `retire`: up to `ipc` entries leave from `tail`, in order, stopping
        at the first one that is not ready; the number removed is
        returned. */
    method Retire() returns (retired: nat)
      requires Valid()
      modifies this
      ensures Valid()
      ensures retired == ReadyPrefix(old(Contents()), ipc)
      ensures Contents() == old(Contents())[retired..]
      ensures head == old(head) && load == old(load) - retired
    {
      ghost var c := Contents();
      if load == 0 {
        return 0;
      }
      retired := 0;
      while load > 0 && retired < ipc
        invariant Valid() && head == old(head)
        invariant retired <= ipc && load == old(load) - retired
        invariant ReadyPrefix(c, ipc) == retired + ReadyPrefix(c[retired..], ipc - retired)
        invariant Contents() == c[retired..]
        decreases load
      {
        RingFront(readyList[..], addrList[..], tail, load);
        if !readyList[tail] {
          break;
        }
        assert c[retired..][1..] == c[retired + 1..];
        DropOldest();
        retired := retired + 1;
      }
    }

    /** One pass of `retire`'s loop: the oldest entry leaves and `tail`
        moves on by one slot. */
    method DropOldest()
      requires Valid() && 0 < load
      modifies this
      ensures Valid() && head == old(head) && load == old(load) - 1
      ensures Contents() == old(Contents())[1..]
    {
      ghost var r, a := readyList[..], addrList[..];
      ghost var t, l := tail, load;
      RingDrop(r, a, t, l);
      tail := (tail + 1) % 128;
      load := load - 1;
      RetireSlots(t, l, head, tail, load);
      assert readyList[..] == r && addrList[..] == a;
      assert Contents() == Ring(r, a, (t + 1) % 128, l - 1);
    }

    /** `set_ready(addr, mask)`: every entry in flight whose address
        matches `addr` under `mask` becomes ready; nothing else changes. */
    method SetReady(addr: int, mask: int)
      requires Valid()
      modifies readyList
      ensures Valid()
      ensures Contents() == MarkBlock(old(Contents()), addr, mask)
    {
      ghost var c := Contents();
      if load == 0 {
        return;
      }
      for i := 0 to load
        invariant Contents() == MarkBlock(c[..i], addr, mask) + c[i..]
      {
        MarkStep(c, i, addr, mask);
        assert (MarkBlock(c[..i], addr, mask) + c[i..])[i] == c[i];
        MarkEntry(i, addr, mask);
      }
      assert c[..load] == c;
    }

    /** One pass of `set_ready`'s loop: entry `i` becomes ready when its
        address matches. */
    method MarkEntry(i: nat, addr: int, mask: int)
      requires Valid() && i < load
      modifies readyList
      ensures Valid()
      ensures Contents() == old(Contents())[i := Mark(old(Contents())[i], addr, mask)]
    {
      ghost var r, a := readyList[..], addrList[..];
      ghost var t, l := tail, load;
      ghost var cur := Ring(r, a, t, l);
      var index := (tail + i) % 128;
      RingAt(r, a, t, l, i);
      if SameBlock(addrList[index], addr, mask) {
        RingMark(r, a, t, l, i);
        readyList[index] := true;
        assert readyList[..] == r[index := true];
        assert Contents() == Ring(r[index := true], a, t, l);
      } else {
        assert cur[i := Mark(cur[i], addr, mask)] == cur;
      }
    }
  }

  /** Distinct offsets below the ring size land in distinct slots. */
  lemma SlotsDistinct(t: nat, i: nat, j: nat)
    requires i < j < 128
    ensures (t + i) % 128 != (t + j) % 128
  {
  }

  /** Moving the start of the ring on by one slot shifts every offset. */
  lemma SlotShift(t: nat, k: nat)
    ensures ((t + 1) % 128 + k) % 128 == (t + 1 + k) % 128
  {
  }

  /** Inserting one entry moves `head` on by one slot. */
  lemma InsertSlots(t: nat, l: nat, h: nat, h': nat, l': nat)
    requires h == (t + l) % 128 && h' == (h + 1) % 128 && l' == l + 1
    ensures h' == (t + l') % 128
  {
    if h < 127 {
      assert (t + l + 1) % 128 == h + 1;
    } else {
      assert (t + l + 1) % 128 == 0;
    }
  }

  /** Retiring one entry keeps `head` where it was. */
  lemma RetireSlots(t: nat, l: nat, h: nat, t': nat, l': nat)
    requires t < 128 && 0 < l && h == (t + l) % 128 && t' == (t + 1) % 128 && l' == l - 1
    ensures h == (t' + l') % 128
  {
    if t < 127 {
      assert (t + 1) % 128 == t + 1;
    } else {
      assert (t + 1) % 128 == 0;
    }
  }

  /** The oldest entry of a non-empty ring sits at `tail`. */
  lemma RingFront(ready: seq<bool>, addrs: seq<int>, tail: nat, load: nat)
    requires |ready| == 128 && |addrs| == 128 && 0 < load <= 128 && tail < 128
    ensures Ring(ready, addrs, tail, load)[0] == Entry(ready[tail], addrs[tail])
  {
    RingAt(ready, addrs, tail, load, 0);
  }

  /** Entry `i` of a ring sits at slot `tail + i` modulo the ring size. */
  lemma {:induction false} RingAt(ready: seq<bool>, addrs: seq<int>, tail: nat, load: nat, i: nat)
    requires |ready| == 128 && |addrs| == 128 && i < load <= 128
    ensures Ring(ready, addrs, tail, load)[i] == Entry(ready[(tail + i) % 128], addrs[(tail + i) % 128])
    decreases load
  {
    if i < load - 1 {
      RingAt(ready, addrs, tail, load - 1, i);
    }
  }

  /** Writing the slot after the last entry appends one entry. */
  lemma RingAppend(ready: seq<bool>, addrs: seq<int>, tail: nat, load: nat, x: bool, y: int)
    requires |ready| == 128 && |addrs| == 128 && load < 128
    ensures var h := (tail + load) % 128;
      Ring(ready[h := x], addrs[h := y], tail, load + 1) == Ring(ready, addrs, tail, load) + [Entry(x, y)]
  {
    var h := (tail + load) % 128;
    var c := Ring(ready, addrs, tail, load);
    var d := Ring(ready[h := x], addrs[h := y], tail, load + 1);
    forall k | 0 <= k < load + 1
      ensures d[k] == (c + [Entry(x, y)])[k]
    {
      RingAt(ready[h := x], addrs[h := y], tail, load + 1, k);
      if k < load {
        RingAt(ready, addrs, tail, load, k);
        SlotsDistinct(tail, k, load);
      }
    }
  }

  /** Moving `tail` on by one slot drops the oldest entry. */
  lemma RingDrop(ready: seq<bool>, addrs: seq<int>, tail: nat, load: nat)
    requires |ready| == 128 && |addrs| == 128 && 0 < load <= 128
    ensures Ring(ready, addrs, (tail + 1) % 128, load - 1) == Ring(ready, addrs, tail, load)[1..]
  {
    var c := Ring(ready, addrs, tail, load);
    var d := Ring(ready, addrs, (tail + 1) % 128, load - 1);
    forall k | 0 <= k < load - 1
      ensures d[k] == c[1..][k]
    {
      RingAt(ready, addrs, (tail + 1) % 128, load - 1, k);
      RingAt(ready, addrs, tail, load, k + 1);
      SlotShift(tail, k);
    }
  }

  /** Setting the ready bit of entry `i`'s slot marks that entry only. */
  lemma RingMark(ready: seq<bool>, addrs: seq<int>, tail: nat, load: nat, i: nat)
    requires |ready| == 128 && |addrs| == 128 && i < load <= 128
    ensures var c := Ring(ready, addrs, tail, load);
      Ring(ready[(tail + i) % 128 := true], addrs, tail, load) == c[i := Entry(true, c[i].addr)]
  {
    var c := Ring(ready, addrs, tail, load);
    var d := Ring(ready[(tail + i) % 128 := true], addrs, tail, load);
    forall k | 0 <= k < load
      ensures d[k] == c[i := Entry(true, c[i].addr)][k]
    {
      RingAt(ready, addrs, tail, load, k);
      RingAt(ready[(tail + i) % 128 := true], addrs, tail, load, k);
      if k < i {
        SlotsDistinct(tail, k, i);
      } else if i < k {
        SlotsDistinct(tail, i, k);
      }
    }
  }

  /** Entry `k` after `set_ready` is entry `k` before, marked. */
  lemma {:induction false} MarkBlockAt(c: seq<Entry>, addr: int, mask: int, k: nat)
    requires k < |c|
    ensures MarkBlock(c, addr, mask)[k] == Mark(c[k], addr, mask)
    decreases |c|
  {
    if 0 < k {
      MarkBlockAt(c[1..], addr, mask, k - 1);
    }
  }

  /** One step of the `set_ready` loop: marking entry `i` extends the
      marked prefix by one. */
  lemma MarkStep(c: seq<Entry>, i: nat, addr: int, mask: int)
    requires i < |c|
    ensures (MarkBlock(c[..i], addr, mask) + c[i..])[i := Mark(c[i], addr, mask)]
            == MarkBlock(c[..i + 1], addr, mask) + c[i + 1..]
  {
    var l := (MarkBlock(c[..i], addr, mask) + c[i..])[i := Mark(c[i], addr, mask)];
    var r := MarkBlock(c[..i + 1], addr, mask) + c[i + 1..];
    assert |l| == |r|;
    forall k | 0 <= k < |l|
      ensures l[k] == r[k]
    {
      if k < i {
        MarkBlockAt(c[..i], addr, mask, k);
        MarkBlockAt(c[..i + 1], addr, mask, k);
        assert c[..i][k] == c[..i + 1][k];
      } else if k == i {
        MarkBlockAt(c[..i + 1], addr, mask, k);
      }
    }
  }
  /** `set_ready` can only let more entries retire: marking never lowers
      the ready run at the front. */
  lemma {:induction false} MarkBlockKeepsReady(c: seq<Entry>, limit: nat, addr: int, mask: int)
    ensures ReadyPrefix(c, limit) <= ReadyPrefix(MarkBlock(c, addr, mask), limit)
    decreases limit
  {
    if limit != 0 && c != [] && c[0].ready {
      var m := MarkBlock(c, addr, mask);
      assert m[0] == Mark(c[0], addr, mask);
      assert m[1..] == MarkBlock(c[1..], addr, mask);
      MarkBlockKeepsReady(c[1..], limit - 1, addr, mask);
    }
  }

  /** After `set_ready(a, mask)` every entry waiting for `a` itself is
      ready, whatever the mask. */
  lemma MarkBlockReadiesOwn(c: seq<Entry>, addr: int, mask: int, k: nat)
    requires k < |c| && c[k].addr == addr
    ensures MarkBlock(c, addr, mask)[k].ready
  {
    MarkBlockAt(c, addr, mask, k);
  }

  // ---------------------------------------------------------------------
  // Core

  /** A request handed to the memory system's `send` callback. */
  datatype MemRequest = MemRequest(addr: int, reqType: ReqType, instructionRequest: bool)

  /** `n` non-memory instructions as they enter the window: ready, with no
      address. */
  function Bubbles(n: nat): (b: seq<Entry>)
    ensures |b| == n
  {
    if n == 0 then [] else Bubbles(n - 1) + [Entry(true, -1)]
  }

  /** Every bubble in the window is a ready entry without an address. */
  lemma {:induction false} BubblesAt(n: nat, k: nat)
    requires k < n
    ensures Bubbles(n)[k] == Entry(true, -1)
    decreases n
  {
    if k < n - 1 {
      BubblesAt(n - 1, k);
    }
  }

  /** The entry a READ leaves in the window once `send` accepted it. */
  function ReadEntry(accepted: bool, t: ReqType, addr: int): seq<Entry> {
    if accepted && t == Read then [Entry(false, addr)] else []
  }

  /** The request `send` is offered for the pending request `t` at `addr`:
      an INSTRUCTION travels as a READ with `instruction_request` set. */
  function Offered(t: ReqType, addr: int): (m: MemRequest)
    ensures m.addr == addr
    ensures m.instructionRequest <==> t == Instruction
    ensures m.reqType == (if t == Instruction then Read else t)
    ensures m.reqType != Instruction
  {
    if t == Instruction then MemRequest(addr, Read, true) else MemRequest(addr, t, false)
  }

  /** What a core records about reaching its expected instruction count:
      whether it has, and the cycle and the count it recorded then. */
  datatype Limit = Limit(reached: bool, cycles: int, insts: int)

  /** The check made after every counted instruction: the first time the
      count equals the expected one, the cycle and the count are recorded. */
  function CheckAt(l: Limit, insts: int, expected: int, clk: int): (r: Limit)
    ensures r.reached == (l.reached || insts == expected)
    ensures r != l <==> !l.reached && insts == expected
    ensures r != l ==> r.cycles == clk && r.insts == expected
  {
    if insts == expected && !l.reached then Limit(true, clk, insts) else l
  }

  /** The checks made after each of the instructions that take the count
      from `lo` to `hi`, one at a time, within one cycle. */
  function CheckEach(l: Limit, lo: int, hi: int, expected: int, clk: int): Limit
    decreases hi - lo
  {
    if hi <= lo then l else CheckAt(CheckEach(l, lo, hi - 1, expected, clk), hi, expected, clk)
  }

  /** Checking after every instruction records the limit exactly when the
      count passed the expected value and nothing was recorded before, and
      the recorded count is then the expected one. */
  lemma {:induction false} CheckEachCrosses(l: Limit, lo: int, hi: int, expected: int, clk: int)
    requires lo <= hi
    ensures CheckEach(l, lo, hi, expected, clk)
            == (if !l.reached && lo < expected <= hi then Limit(true, clk, expected) else l)
    decreases hi - lo
  {
    if lo < hi {
      CheckEachCrosses(l, lo, hi - 1, expected, clk);
    }
  }

  /** The check at the end of both ticks: when the trace has run out and
      nothing was recorded yet, the cycle and the count reached are. */
  function FinishAt(l: Limit, moreReqs: bool, insts: int, clk: int): (r: Limit)
    ensures r.reached == (l.reached || !moreReqs)
    ensures r != l <==> !l.reached && !moreReqs
    ensures r != l ==> r.cycles == clk && r.insts == insts
  {
    if !moreReqs && !l.reached then Limit(true, clk, insts) else l
  }

  /** Once reached, the record is final: no later check changes it. */
  lemma {:induction false} ReachedIsFinal(l: Limit, lo: int, hi: int, expected: int, clk: int, more: bool, insts: int)
    requires l.reached
    ensures CheckEach(l, lo, hi, expected, clk) == l
    ensures FinishAt(l, more, insts, clk) == l
    decreases hi - lo
  {
    if lo < hi {
      ReachedIsFinal(l, lo, hi - 1, expected, clk, more, insts);
    }
  }

  /** The variables of a `Core` that its ticks update, one value per
      state of the core: its cycle and retired count, the in-order stall
      flags, the limit record, the pending request (`bubble_cnt`,
      `req_addr`, `req_type`, `more_reqs`), the last departure seen by
      `receive`, and the statistics counters. */
  datatype CoreState = CoreState(
    clk: int, retired: int, inFlightMemoryAccess: nat, lockCore: bool, limit: Limit,
    bubbleCnt: int, reqAddr: int, reqType: ReqType, moreReqs: bool, last: int,
    memoryAccessCycles: int, cpuInst: int, idleCycles: int, memoryInst: int, nonMemoryInst: int)

  /** What one tick did: the request offered to `send`, if any, whether
      the pending memory instruction was carried out (so that the next
      request was fetched), and the number of bubbles executed. */
  datatype Issue = Issue(attempt: Option<MemRequest>, done: bool, bubbles: nat)

  /** A `Core` of ramulator's trace-driven CPU. The memory system's `send`
      callback is the `sendOk` answer passed to each tick, the next zsim
      trace line is a parameter, and `memory.page_allocator` is the
      function `allocate`. The statistics are counters. */
  class Core {
    const cpuType: string
    const splitTrace: bool
    const expectedLimitInsts: int
    const window: Window
    const rqstQueue: SqueduleQueue
    var st: CoreState

    ghost predicate Valid()
      reads window, rqstQueue
    {
      window.Valid() && rqstQueue.Valid()
    }

    /** A core with an empty window and request queue, all counters zero,
        and `first` as its pending request. */
    constructor (cpuType: string, splitTrace: bool, expectedLimitInsts: int, first: Fields, moreReqs: bool)
      ensures Valid() && fresh(window) && fresh(window.readyList) && fresh(window.addrList) && fresh(rqstQueue)
      ensures this.cpuType == cpuType && this.splitTrace == splitTrace
      ensures this.expectedLimitInsts == expectedLimitInsts
      ensures window.Contents() == [] && rqstQueue.IsEmpty()
      ensures st == CoreState(0, 0, 0, false, Limit(false, 0, 0), first.bubbleCnt, first.reqAddr, first.reqType,
                              moreReqs, 0, 0, 0, 0, 0, 0)
    {
      this.cpuType, this.splitTrace, this.expectedLimitInsts := cpuType, splitTrace, expectedLimitInsts;
      st := CoreState(0, 0, 0, false, Limit(false, 0, 0), first.bubbleCnt, first.reqAddr, first.reqType,
                      moreReqs, 0, 0, 0, 0, 0, 0);
      window := new Window();
      rqstQueue := new SqueduleQueue();
    }

    /** The next request from the core's own queue: its front, popped, or
        the end of the trace when the queue is empty. */
    method QueueNext()
      requires Valid()
      modifies this, rqstQueue
      ensures Valid()
      ensures old(rqstQueue.IsEmpty()) ==>
                st == old(st).(moreReqs := false) && unchanged(rqstQueue)
      ensures !old(rqstQueue.IsEmpty()) ==>
                && st == old(st).(moreReqs := true, bubbleCnt := old(rqstQueue.bubbleCnt[0]),
                                  reqAddr := old(rqstQueue.reqAddr[0]), reqType := old(rqstQueue.reqType[0]))
                && rqstQueue.bubbleCnt == old(rqstQueue.bubbleCnt[1..]) && rqstQueue.reqAddr == old(rqstQueue.reqAddr[1..])
                && rqstQueue.reqType == old(rqstQueue.reqType[1..])
    {
      if !rqstQueue.IsEmpty() {
        st := st.(moreReqs := true, bubbleCnt := rqstQueue.bubbleCnt[0], reqAddr := rqstQueue.reqAddr[0],
                  reqType := rqstQueue.reqType[0]);
        rqstQueue.PopFront();
      } else {
        st := st.(moreReqs := false);
      }
    }

    /** The next request of an out-of-order core: from its own zsim trace
        when the trace is split per core, its address then passed through
        the page allocator, and from the queue otherwise. */
    method NextRequest(next: Option<string>, allocate: int -> int)
      requires Valid()
      modifies this, rqstQueue
      ensures Valid()
      ensures splitTrace ==>
                && var f := ZsimRequest(next, Fields(old(st.bubbleCnt), old(st.reqAddr), old(st.reqType), 0));
                && st == old(st).(moreReqs := f.more, bubbleCnt := f.fields.bubbleCnt,
                                  reqAddr := allocate(f.fields.reqAddr), reqType := f.fields.reqType)
                && unchanged(rqstQueue)
      ensures !splitTrace && old(rqstQueue.IsEmpty()) ==> st == old(st).(moreReqs := false)
      ensures !splitTrace && !old(rqstQueue.IsEmpty()) ==>
                && st == old(st).(moreReqs := true, bubbleCnt := old(rqstQueue.bubbleCnt[0]),
                                  reqAddr := old(rqstQueue.reqAddr[0]), reqType := old(rqstQueue.reqType[0]))
                && rqstQueue.bubbleCnt == old(rqstQueue.bubbleCnt[1..]) && rqstQueue.reqAddr == old(rqstQueue.reqAddr[1..])
                && rqstQueue.reqType == old(rqstQueue.reqType[1..])
    {
      if splitTrace {
        var f := GetZsimRequest(next, Fields(st.bubbleCnt, st.reqAddr, st.reqType, 0));
        st := st.(moreReqs := f.more, bubbleCnt := f.fields.bubbleCnt, reqAddr := allocate(f.fields.reqAddr),
                  reqType := f.fields.reqType);
      } else {
        QueueNext();
      }
    }

    /** The bubble loop of `tick_outOrder`: pending non-memory instructions
        enter the window as ready entries, at most `ipc` of them and never
        into a full window; each is counted and followed by the limit
        check. `stop` says the tick ends here: the budget ran out with
        bubbles left, which counts one idle cycle, or the window filled
        up. */
    method OutOrderBubbles() returns (inserted: nat, stop: bool)
      requires Valid()
      modifies this, window, window.readyList, window.addrList
      ensures Valid()
      ensures inserted <= window.ipc
      ensures window.Contents() == old(window.Contents()) + Bubbles(inserted)
      ensures stop <==> inserted < old(st.bubbleCnt)
      ensures !stop ==> inserted == Max(old(st.bubbleCnt), 0)
      ensures stop && inserted < window.ipc ==> window.IsFull()
      ensures st == old(st).(bubbleCnt := old(st.bubbleCnt) - inserted,
                             cpuInst := old(st.cpuInst) + inserted,
                             nonMemoryInst := old(st.nonMemoryInst) + inserted,
                             idleCycles := old(st.idleCycles) + (if stop && inserted == window.ipc then 1 else 0),
                             limit := CheckEach(old(st.limit), old(st.cpuInst), old(st.cpuInst) + inserted,
                                                expectedLimitInsts, old(st.clk)))
    {
      var limit;
      inserted, stop, limit := InsertBubbles(st.bubbleCnt, st.cpuInst, st.limit, st.clk);
      st := st.(bubbleCnt := st.bubbleCnt - inserted, cpuInst := st.cpuInst + inserted,
                nonMemoryInst := st.nonMemoryInst + inserted,
                idleCycles := st.idleCycles + (if stop && inserted == window.ipc then 1 else 0),
                limit := limit);
    }

    /** The loop itself, over the window alone: `count` bubbles are
        pending and the count of instructions stands at `insts`. */
    method InsertBubbles(count: int, insts: int, limit0: Limit, clk: int) returns (inserted: nat, stop: bool, limit: Limit)
      requires window.Valid()
      modifies window, window.readyList, window.addrList
      ensures window.Valid()
      ensures inserted <= window.ipc
      ensures window.Contents() == old(window.Contents()) + Bubbles(inserted)
      ensures stop <==> inserted < count
      ensures !stop ==> inserted == Max(count, 0)
      ensures stop && inserted < window.ipc ==> window.IsFull()
      ensures limit == CheckEach(limit0, insts, insts + inserted, expectedLimitInsts, clk)
    {
      inserted, stop, limit := 0, false, limit0;
      while inserted < count
        modifies window, window.readyList, window.addrList
        invariant window.Valid()
        invariant inserted <= window.ipc && (inserted == 0 || inserted <= count)
        invariant window.Contents() == old(window.Contents()) + Bubbles(inserted)
        invariant limit == CheckEach(limit0, insts, insts + inserted, expectedLimitInsts, clk)
        decreases count - inserted
      {
        if inserted == window.ipc || window.IsFull() {
          stop := true;
          return;
        }
        window.Insert(true, -1);
        inserted := inserted + 1;
        limit := CheckAt(limit, insts + inserted, expectedLimitInsts, clk);
      }
    }

    /** The memory instruction of `tick_outOrder`, after `inserted`
        bubbles. A READ needs budget and window room, is offered to `send`
        and, once accepted, enters the window not ready; a WRITE is offered
        without either test and never occupies the window; an INSTRUCTION
        needs budget and is offered as a READ with `instruction_request`
        set. An exhausted budget counts one idle cycle. READs and WRITEs
        that `send` accepts are counted as memory instructions. */
    method OutOrderIssue(inserted: nat, sendOk: bool) returns (attempt: Option<MemRequest>, accepted: bool)
      requires Valid() && inserted <= window.ipc
      modifies this, window, window.readyList, window.addrList
      ensures Valid()
      ensures attempt.None? <==>
                || (old(st.reqType) != Write && inserted == window.ipc)
                || (old(st.reqType) == Read && inserted < window.ipc && old(window.IsFull()))
      ensures attempt.Some? ==> attempt.value == Offered(old(st.reqType), old(st.reqAddr))
      ensures accepted <==> attempt.Some? && sendOk
      ensures window.Contents() == old(window.Contents()) + ReadEntry(accepted, old(st.reqType), old(st.reqAddr))
      ensures st == old(st).(cpuInst := old(st.cpuInst) + (if accepted && old(st.reqType) != Instruction then 1 else 0),
                             memoryInst := old(st.memoryInst) + (if accepted && old(st.reqType) != Instruction then 1 else 0),
                             idleCycles := old(st.idleCycles) + (if attempt.None? && inserted == window.ipc then 1 else 0))
    {
      attempt, accepted := None, false;
      match st.reqType {
        case Read =>
          if inserted == window.ipc {
            st := st.(idleCycles := st.idleCycles + 1);
            return;
          }
          if window.IsFull() {
            return;
          }
          attempt := Some(Offered(Read, st.reqAddr));
          if !sendOk {
            return;
          }
          window.Insert(false, st.reqAddr);
          accepted := true;
          st := st.(cpuInst := st.cpuInst + 1, memoryInst := st.memoryInst + 1);
        case Write =>
          attempt := Some(Offered(Write, st.reqAddr));
          if !sendOk {
            return;
          }
          accepted := true;
          st := st.(cpuInst := st.cpuInst + 1, memoryInst := st.memoryInst + 1);
        case Instruction =>
          if inserted == window.ipc {
            st := st.(idleCycles := st.idleCycles + 1);
            return;
          }
          attempt := Some(Offered(Instruction, st.reqAddr));
          accepted := sendOk;
      }
    }

    /** `tick_outOrder`: the window retires what it can; unless the trace
        is over with no limit to reach, or the core is locked, the tick then
        goes on as `OutOrderExecute`. */
    method TickOutOrder(sendOk: bool, next: Option<string>, allocate: int -> int) returns (issue: Issue)
      requires Valid()
      modifies this, window, window.readyList, window.addrList, rqstQueue
      ensures Valid()
      ensures st.retired == old(st.retired) + ReadyPrefix(old(window.Contents()), window.ipc)
      ensures issue.bubbles <= window.ipc
      ensures issue.attempt.Some? && old(st.reqType) != Write ==> issue.bubbles < window.ipc
      ensures issue.bubbles + |ReadEntry(issue.done, old(st.reqType), old(st.reqAddr))| <= window.ipc
      ensures window.Contents()
              == old(window.Contents())[ReadyPrefix(old(window.Contents()), window.ipc)..]
                 + Bubbles(issue.bubbles) + ReadEntry(issue.done, old(st.reqType), old(st.reqAddr))
      ensures (expectedLimitInsts == 0 && !old(st.moreReqs)) || old(st.lockCore) ==>
                issue == Issue(None, false, 0) && st == old(st).(retired := st.retired)
      ensures issue.attempt.Some? ==>
                issue.attempt.value == Offered(old(st.reqType), old(st.reqAddr))
                && issue.bubbles == Max(old(st.bubbleCnt), 0)
      ensures issue.done <==> issue.attempt.Some? && sendOk
      ensures st.nonMemoryInst == old(st.nonMemoryInst) + issue.bubbles
      ensures st.cpuInst == old(st.cpuInst) + issue.bubbles + (if issue.done && old(st.reqType) != Instruction then 1 else 0)
      ensures st.memoryInst == old(st.memoryInst) + (if issue.done && old(st.reqType) != Instruction then 1 else 0)
      ensures st.idleCycles == old(st.idleCycles)
              || (st.idleCycles == old(st.idleCycles) + 1 && issue.bubbles == window.ipc && issue.attempt.None?)
      ensures st.clk == old(st.clk) && st.lockCore == old(st.lockCore) && st.last == old(st.last)
      ensures st.inFlightMemoryAccess == old(st.inFlightMemoryAccess)
      ensures st.memoryAccessCycles == old(st.memoryAccessCycles)
      ensures !issue.done ==>
                && st.bubbleCnt == old(st.bubbleCnt) - issue.bubbles && st.moreReqs == old(st.moreReqs)
                && st.reqAddr == old(st.reqAddr) && st.reqType == old(st.reqType) && unchanged(rqstQueue)
      ensures issue.done && splitTrace ==>
                st.moreReqs == ZsimRequest(next, Fields(old(st.bubbleCnt) - issue.bubbles, old(st.reqAddr), old(st.reqType), 0)).more
      ensures issue.done && !splitTrace ==> st.moreReqs == !old(rqstQueue.IsEmpty())
      ensures old(st.limit.reached) ==> st.limit == old(st.limit)
      ensures st.limit.reached <==>
                || old(st.limit.reached)
                || old(st.cpuInst) < expectedLimitInsts <= old(st.cpuInst) + issue.bubbles
                || (issue.done && !st.moreReqs)
    {
      var r := window.Retire();
      st := st.(retired := st.retired + r);
      if expectedLimitInsts == 0 && !st.moreReqs {
        return Issue(None, false, 0);
      }
      if st.lockCore {
        return Issue(None, false, 0);
      }
      issue := OutOrderExecute(sendOk, next, allocate);
    }

    /** The rest of `tick_outOrder`: the pending bubbles enter the window,
        then the pending memory instruction is offered; once `send` accepts
        it the next request is fetched and the end of the trace is
        recorded. */
    method OutOrderExecute(sendOk: bool, next: Option<string>, allocate: int -> int) returns (issue: Issue)
      requires Valid()
      modifies this, window, window.readyList, window.addrList, rqstQueue
      ensures Valid()
      ensures issue.bubbles <= window.ipc
      ensures issue.attempt.Some? && old(st.reqType) != Write ==> issue.bubbles < window.ipc
      ensures issue.bubbles + |ReadEntry(issue.done, old(st.reqType), old(st.reqAddr))| <= window.ipc
      ensures window.Contents()
              == old(window.Contents()) + Bubbles(issue.bubbles) + ReadEntry(issue.done, old(st.reqType), old(st.reqAddr))
      ensures issue.attempt.Some? ==>
                issue.attempt.value == Offered(old(st.reqType), old(st.reqAddr))
                && issue.bubbles == Max(old(st.bubbleCnt), 0)
      ensures issue.done <==> issue.attempt.Some? && sendOk
      ensures st.nonMemoryInst == old(st.nonMemoryInst) + issue.bubbles
      ensures st.cpuInst == old(st.cpuInst) + issue.bubbles + (if issue.done && old(st.reqType) != Instruction then 1 else 0)
      ensures st.memoryInst == old(st.memoryInst) + (if issue.done && old(st.reqType) != Instruction then 1 else 0)
      ensures st.idleCycles == old(st.idleCycles)
              || (st.idleCycles == old(st.idleCycles) + 1 && issue.bubbles == window.ipc && issue.attempt.None?)
      ensures st.clk == old(st.clk) && st.lockCore == old(st.lockCore) && st.last == old(st.last)
      ensures st.inFlightMemoryAccess == old(st.inFlightMemoryAccess) && st.retired == old(st.retired)
      ensures st.memoryAccessCycles == old(st.memoryAccessCycles)
      ensures !issue.done ==>
                && st.bubbleCnt == old(st.bubbleCnt) - issue.bubbles && st.moreReqs == old(st.moreReqs)
                && st.reqAddr == old(st.reqAddr) && st.reqType == old(st.reqType) && unchanged(rqstQueue)
      ensures issue.done && splitTrace ==>
                st.moreReqs == ZsimRequest(next, Fields(old(st.bubbleCnt) - issue.bubbles, old(st.reqAddr), old(st.reqType), 0)).more
      ensures issue.done && !splitTrace ==> st.moreReqs == !old(rqstQueue.IsEmpty())
      ensures old(st.limit.reached) ==> st.limit == old(st.limit)
      ensures st.limit.reached <==>
                || old(st.limit.reached)
                || old(st.cpuInst) < expectedLimitInsts <= old(st.cpuInst) + issue.bubbles
                || (issue.done && !st.moreReqs)
    {
      ghost var s0 := st;
      var inserted, stop := OutOrderBubbles();
      CheckEachCrosses(s0.limit, s0.cpuInst, s0.cpuInst + inserted, expectedLimitInsts, s0.clk);
      if stop {
        return Issue(None, false, inserted);
      }
      var attempt, accepted := OutOrderIssue(inserted, sendOk);
      issue := Issue(attempt, accepted, inserted);
      if !accepted {
        return;
      }
      Advance(next, allocate);
    }

    /** The end of `tick_outOrder` once `send` accepted: the next request
        is fetched, and the end of the trace is recorded. */
    method Advance(next: Option<string>, allocate: int -> int)
      requires Valid()
      modifies this, rqstQueue
      ensures Valid()
      ensures splitTrace ==> st.moreReqs == ZsimRequest(next, Fields(old(st.bubbleCnt), old(st.reqAddr), old(st.reqType), 0)).more
      ensures !splitTrace ==> st.moreReqs == !old(rqstQueue.IsEmpty())
      ensures st.limit == FinishAt(old(st.limit), st.moreReqs, old(st.cpuInst), old(st.clk))
      ensures st.clk == old(st.clk) && st.retired == old(st.retired) && st.inFlightMemoryAccess == old(st.inFlightMemoryAccess)
      ensures st.lockCore == old(st.lockCore) && st.last == old(st.last) && st.memoryAccessCycles == old(st.memoryAccessCycles)
      ensures st.cpuInst == old(st.cpuInst) && st.idleCycles == old(st.idleCycles)
      ensures st.memoryInst == old(st.memoryInst) && st.nonMemoryInst == old(st.nonMemoryInst)
    {
      NextRequest(next, allocate);
      st := st.(limit := FinishAt(st.limit, st.moreReqs, st.cpuInst, st.clk));
    }

    /** The bubble loop of `tick_inOrder`: no window is involved; at most
        `ipc` bubbles execute, each counted as an instruction and as
        retired and followed by the limit check. Running out of budget
        ends the tick without an idle cycle. */
    method InOrderBubbles() returns (inserted: nat, stop: bool)
      modifies this
      ensures inserted <= window.ipc
      ensures stop <==> inserted < old(st.bubbleCnt)
      ensures !stop ==> inserted == Max(old(st.bubbleCnt), 0)
      ensures st == old(st).(bubbleCnt := old(st.bubbleCnt) - inserted,
                             cpuInst := old(st.cpuInst) + inserted,
                             retired := old(st.retired) + inserted,
                             limit := CheckEach(old(st.limit), old(st.cpuInst), old(st.cpuInst) + inserted,
                                                expectedLimitInsts, old(st.clk)))
    {
      inserted, stop := 0, false;
      var limit := st.limit;
      while inserted < st.bubbleCnt
        invariant inserted <= window.ipc && (inserted == 0 || inserted <= st.bubbleCnt)
        invariant st == old(st)
        invariant limit == CheckEach(st.limit, st.cpuInst, st.cpuInst + inserted, expectedLimitInsts, st.clk)
        decreases st.bubbleCnt - inserted
      {
        if inserted == window.ipc {
          stop := true;
          break;
        }
        inserted := inserted + 1;
        limit := CheckAt(limit, st.cpuInst + inserted, expectedLimitInsts, st.clk);
      }
      st := st.(bubbleCnt := st.bubbleCnt - inserted, cpuInst := st.cpuInst + inserted,
                retired := st.retired + inserted, limit := limit);
    }

    /** `tick_inOrder`: nothing happens once the trace is over with no limit
        to reach, while a memory access is in flight, or when the core is
        locked; otherwise the tick goes on as `InOrderExecute`. */
    method TickInOrder(sendOk: bool) returns (issue: Issue)
      requires Valid()
      modifies this, rqstQueue
      ensures Valid()
      ensures (expectedLimitInsts == 0 && !old(st.moreReqs)) || old(st.inFlightMemoryAccess) >= 1 || old(st.lockCore) ==>
                issue == Issue(None, false, 0) && st == old(st)
      ensures issue.bubbles <= window.ipc && st.retired == old(st.retired) + issue.bubbles
      ensures issue.attempt.Some? ==>
                && old(st.reqType) != Read
                && issue.attempt.value == Offered(old(st.reqType), old(st.reqAddr))
                && issue.bubbles == Max(old(st.bubbleCnt), 0)
      ensures issue.done ==> issue.bubbles == Max(old(st.bubbleCnt), 0)
      ensures issue.done && old(st.reqType) != Read ==> issue.attempt.Some? && sendOk
      ensures st.cpuInst == old(st.cpuInst) + issue.bubbles + (if issue.done && old(st.reqType) != Instruction then 1 else 0)
      ensures st.inFlightMemoryAccess == old(st.inFlightMemoryAccess) + (if issue.done && old(st.reqType) == Instruction then 1 else 0)
      ensures st.lockCore == (old(st.lockCore) || (issue.done && old(st.reqType) == Instruction))
      ensures st.clk == old(st.clk) && st.last == old(st.last) && st.memoryAccessCycles == old(st.memoryAccessCycles)
      ensures st.idleCycles == old(st.idleCycles) && st.memoryInst == old(st.memoryInst)
      ensures st.nonMemoryInst == old(st.nonMemoryInst)
      ensures !issue.done ==>
                && st.bubbleCnt == old(st.bubbleCnt) - issue.bubbles && st.moreReqs == old(st.moreReqs)
                && st.reqAddr == old(st.reqAddr) && st.reqType == old(st.reqType) && unchanged(rqstQueue)
      ensures issue.done ==> st.moreReqs == !old(rqstQueue.IsEmpty())
      ensures old(st.limit.reached) ==> st.limit == old(st.limit)
      ensures st.limit.reached <==>
                || old(st.limit.reached)
                || old(st.cpuInst) < expectedLimitInsts <= old(st.cpuInst) + issue.bubbles
                || (issue.done && !st.moreReqs)
    {
      if expectedLimitInsts == 0 && !st.moreReqs {
        return Issue(None, false, 0);
      }
      if st.inFlightMemoryAccess >= 1 {
        return Issue(None, false, 0);
      }
      if st.lockCore {
        return Issue(None, false, 0);
      }
      issue := InOrderExecute(sendOk);
    }

    /** The rest of `tick_inOrder`: the bubbles execute, then the pending
        memory instruction; once it is carried out the next request comes
        from the queue and the end of the trace is recorded. */
    method InOrderExecute(sendOk: bool) returns (issue: Issue)
      requires Valid()
      modifies this, rqstQueue
      ensures Valid()
      ensures issue.bubbles <= window.ipc && st.retired == old(st.retired) + issue.bubbles
      ensures issue.attempt.Some? ==>
                && old(st.reqType) != Read
                && issue.attempt.value == Offered(old(st.reqType), old(st.reqAddr))
                && issue.bubbles == Max(old(st.bubbleCnt), 0)
      ensures issue.done ==> issue.bubbles == Max(old(st.bubbleCnt), 0)
      ensures issue.done && old(st.reqType) != Read ==> issue.attempt.Some? && sendOk
      ensures st.cpuInst == old(st.cpuInst) + issue.bubbles + (if issue.done && old(st.reqType) != Instruction then 1 else 0)
      ensures st.inFlightMemoryAccess == old(st.inFlightMemoryAccess) + (if issue.done && old(st.reqType) == Instruction then 1 else 0)
      ensures st.lockCore == (old(st.lockCore) || (issue.done && old(st.reqType) == Instruction))
      ensures st.clk == old(st.clk) && st.last == old(st.last) && st.memoryAccessCycles == old(st.memoryAccessCycles)
      ensures st.idleCycles == old(st.idleCycles) && st.memoryInst == old(st.memoryInst)
      ensures st.nonMemoryInst == old(st.nonMemoryInst)
      ensures !issue.done ==>
                && st.bubbleCnt == old(st.bubbleCnt) - issue.bubbles && st.moreReqs == old(st.moreReqs)
                && st.reqAddr == old(st.reqAddr) && st.reqType == old(st.reqType) && unchanged(rqstQueue)
      ensures issue.done ==> st.moreReqs == !old(rqstQueue.IsEmpty())
      ensures old(st.limit.reached) ==> st.limit == old(st.limit)
      ensures st.limit.reached <==>
                || old(st.limit.reached)
                || old(st.cpuInst) < expectedLimitInsts <= old(st.cpuInst) + issue.bubbles
                || (issue.done && !st.moreReqs)
    {
      ghost var s0 := st;
      var inserted, stop := InOrderBubbles();
      CheckEachCrosses(s0.limit, s0.cpuInst, s0.cpuInst + inserted, expectedLimitInsts, s0.clk);
      if stop {
        return Issue(None, false, inserted);
      }
      var attempt, done := InOrderIssue(inserted, sendOk);
      issue := Issue(attempt, done, inserted);
      if !done {
        return;
      }
      QueueNext();
      st := st.(limit := FinishAt(st.limit, st.moreReqs, st.cpuInst, st.clk));
    }

    /** The memory instruction of `tick_inOrder`, after `inserted` bubbles:
        a READ needs budget and is only counted, for the branch that would
        offer it to `send` cannot be reached; a WRITE is offered and counted
        once accepted; an INSTRUCTION needs budget, is offered as a READ
        with `instruction_request` set and, once accepted, is in flight and
        locks the core. `done` says the instruction was carried out. */
    method InOrderIssue(inserted: nat, sendOk: bool) returns (attempt: Option<MemRequest>, done: bool)
      requires inserted <= window.ipc
      modifies this
      ensures attempt.Some? <==> old(st.reqType) == Write || (old(st.reqType) == Instruction && inserted < window.ipc)
      ensures attempt.Some? ==> attempt.value == Offered(old(st.reqType), old(st.reqAddr))
      ensures done <==> if old(st.reqType) == Read then inserted < window.ipc else attempt.Some? && sendOk
      ensures st == old(st).(cpuInst := old(st.cpuInst) + (if done && old(st.reqType) != Instruction then 1 else 0),
                             inFlightMemoryAccess := old(st.inFlightMemoryAccess) + (if done && old(st.reqType) == Instruction then 1 else 0),
                             lockCore := old(st.lockCore) || (done && old(st.reqType) == Instruction))
    {
      attempt, done := None, false;
      match st.reqType {
        case Read =>
          if inserted == window.ipc {
            return;
          }
          done := true;
          st := st.(cpuInst := st.cpuInst + 1);
        case Write =>
          attempt := Some(Offered(Write, st.reqAddr));
          if !sendOk {
            return;
          }
          done := true;
          st := st.(cpuInst := st.cpuInst + 1);
        case Instruction =>
          if inserted == window.ipc {
            return;
          }
          attempt := Some(Offered(Instruction, st.reqAddr));
          if !sendOk {
            return;
          }
          done := true;
          st := st.(inFlightMemoryAccess := st.inFlightMemoryAccess + 1, lockCore := true);
      }
    }

    /** `Core::tick`: the clock advances, then the tick of the core's type
        runs; a core of any other type does nothing more. */
    method Tick(sendOk: bool, next: Option<string>, allocate: int -> int) returns (issue: Issue)
      requires Valid()
      modifies this, window, window.readyList, window.addrList, rqstQueue
      ensures Valid()
      ensures st.clk == old(st.clk) + 1
      ensures issue.bubbles <= window.ipc
      ensures issue.attempt.Some? ==> issue.attempt.value == Offered(old(st.reqType), old(st.reqAddr))
      ensures cpuType == "inOrder" ==> window.Contents() == old(window.Contents())
      ensures cpuType != "inOrder" && cpuType != "outOrder" ==>
                issue == Issue(None, false, 0) && st == old(st).(clk := old(st.clk) + 1)
                && window.Contents() == old(window.Contents()) && unchanged(rqstQueue)
      ensures st.lockCore ==> old(st.lockCore) || (cpuType == "inOrder" && issue.done && old(st.reqType) == Instruction)
      ensures old(st.limit.reached) ==> st.limit == old(st.limit)
    {
      st := st.(clk := st.clk + 1);
      if cpuType == "inOrder" {
        issue := TickInOrder(sendOk);
      } else if cpuType == "outOrder" {
        issue := TickOutOrder(sendOk, next, allocate);
      } else {
        issue := Issue(None, false, 0);
      }
    }

    /** `Core::receive`: the entries of the returned request's cache block
        (64-byte blocks, mask `~63`) become ready, and a departure later
        than any seen before adds the cycles since the later of the last
        departure and this arrival to the memory access cycles. */
    method Receive(addr: int, arrive: int, depart: int)
      requires Valid()
      modifies this, window.readyList
      ensures Valid()
      ensures window.Contents() == MarkBlock(old(window.Contents()), addr, -64)
      ensures forall k :: 0 <= k < |old(window.Contents())| && old(window.Contents())[k].addr == addr ==>
                window.Contents()[k].ready
      ensures ReadyPrefix(old(window.Contents()), window.ipc) <= ReadyPrefix(window.Contents(), window.ipc)
      ensures arrive != -1 && depart > old(st.last) ==>
                st == old(st).(memoryAccessCycles := old(st.memoryAccessCycles) + depart - Max(old(st.last), arrive),
                               last := depart)
      ensures !(arrive != -1 && depart > old(st.last)) ==> st == old(st)
      ensures st.last >= old(st.last)
    {
      ghost var c := window.Contents();
      window.SetReady(addr, -64);
      forall k | 0 <= k < |c| && c[k].addr == addr
        ensures window.Contents()[k].ready
      {
        MarkBlockReadiesOwn(c, addr, -64, k);
      }
      MarkBlockKeepsReady(c, window.ipc, addr, -64);
      if arrive != -1 && depart > st.last {
        st := st.(memoryAccessCycles := st.memoryAccessCycles + depart - Max(st.last, arrive), last := depart);
      }
    }
  }
}
