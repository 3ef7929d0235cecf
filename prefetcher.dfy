/** zsim's two prefetchers that sit between a cache and its parent:
    the stream prefetcher (a 16-entry table of pages, each learning a stride
    over the 64 lines of its page) and AMPM (access-map pattern matching
    over a small set of pages). Both forward every request to the parent;
    the parent's answers (response cycles) enter as an oracle `parent`,
    where `parent(0)` answers the demand request and `parent(n)` the n-th
    prefetch issued by the same access. */
module Prefetcher {
  import opened Common
  import opened MemReqs

  /** A line offset inside a page of 64 lines (`lineAddr & 63`). */
  type Offset = x: nat | x < 64

  const PAGE_LINES: int := 64
  const STREAM_ENTRIES: nat := 16
  /** Entries touched in the last 500 cycles are not replacement candidates. */
  const WARM_CYCLES: nat := 500

  function PageOf(lineAddr: Address): nat {
    lineAddr / PAGE_LINES
  }

  function OffsetOf(lineAddr: Address): Offset {
    lineAddr % PAGE_LINES
  }

  /** The prefetch request for line `t` of the page `req` falls in: a GETS
      marked `PREFETCH` and `PREFETCH_TRACE`, issued at the demand's cycle
      on behalf of the same core. */
  function PrefetchReq(req: MemReq, t: Offset): (r: MemReq)
    ensures r.lineAddr / PAGE_LINES == req.lineAddr / PAGE_LINES && r.lineAddr % PAGE_LINES == t
    ensures r.kind == GETS && r.prefetch && r.prefetchTrace && r.cycle == req.cycle && r.coreId == req.coreId
  {
    MemReq(PageOf(req.lineAddr) * PAGE_LINES + t, GETS, req.cycle, req.coreId, false, false, true, true)
  }

  function PrefetchReqs(req: MemReq, ts: seq<Offset>): (r: seq<MemReq>)
    ensures |r| == |ts|
  {
    if |ts| == 0 then [] else [PrefetchReq(req, ts[0])] + PrefetchReqs(req, ts[1..])
  }

  lemma {:induction false} PrefetchReqsAt(req: MemReq, ts: seq<Offset>, j: nat)
    requires j < |ts|
    ensures PrefetchReqs(req, ts)[j] == PrefetchReq(req, ts[j])
  {
    if j > 0 {
      PrefetchReqsAt(req, ts[1..], j - 1);
    }
  }

  // ---------------------------------------------------------------------
  // Stream prefetcher: one table entry

  /** The saturating confidence counter: bounded by `max`, predicting once
      it reaches `threshold`, reset to `init`. */
  datatype SatParams = SatParams(max: nat, threshold: nat, init: nat)

  function SatInc(c: nat, p: SatParams): nat {
    Min(c + 1, p.max)
  }

  function SatDec(c: nat): nat {
    if c > 0 then c - 1 else 0
  }

  predicate SatPred(c: nat, p: SatParams) {
    c >= p.threshold
  }

  /** Cycle a prefetch was issued at and cycle its response arrives. */
  datatype AccessTimes = AccessTimes(startCycle: nat, respCycle: nat)

  /** One page of the stream table (`Entry`). */
  datatype StreamEntry = StreamEntry(
    conf: nat,
    valid: seq<bool>,
    times: seq<AccessTimes>,
    lastPos: Offset,
    lastLastPos: Offset,
    lastPrefetchPos: Offset,
    lastCycle: nat,
    stride: int,
    ts: nat)

  /** Shape every entry keeps: 64 offsets and a nonzero stride (the stride
      is a divisor when prefetches are planned). */
  predicate EntryOk(e: StreamEntry) {
    |e.valid| == PAGE_LINES && |e.times| == PAGE_LINES && e.stride != 0
  }

  /** `Entry::alloc(reqCycle)`: confidence reset, no offset valid, positions
      and stride back to their initial values, warm since `reqCycle`. */
  function Alloc(e: StreamEntry, reqCycle: nat, p: SatParams, initialStride: int): StreamEntry {
    e.(conf := p.init, valid := seq(PAGE_LINES, _ => false), lastPos := 0, lastLastPos := 0,
       lastPrefetchPos := 0, lastCycle := reqCycle, stride := initialStride)
  }

  /** An entry as allocated at cycle 0, with no response times recorded. */
  function BlankEntry(p: SatParams, stride0: int): StreamEntry {
    StreamEntry(p.init, seq(PAGE_LINES, _ => false), seq(PAGE_LINES, _ => AccessTimes(0, 0)),
                0, 0, 0, 0, stride0, 0)
  }

  /** Step 1 of a hit: the entry after consuming a prefetched offset, the
      response cycle and whether the prefetch was short (late). */
  datatype Consumed = Consumed(entry: StreamEntry, resp: nat, short: bool)

  function ConsumePrefetch(e: StreamEntry, pos: Offset, resp: nat): (r: Consumed)
    requires EntryOk(e)
    ensures EntryOk(r.entry)
  {
    if e.valid[pos] then
      var pfResp := e.times[pos].respCycle;
      var resp' := Max(pfResp, resp);
      Consumed(e.(valid := e.valid[pos := false], lastCycle := Max(resp', e.lastCycle)), resp', pfResp > resp)
    else Consumed(e, resp, false)
  }

  /** Step 2 of a hit: the entry after training and the offsets prefetched,
      in issue order. */
  datatype Trained = Trained(entry: StreamEntry, targets: seq<Offset>)

  /** `fetchDepth` and the first `prefetchPos`, computed as the source does
      in 32-bit arithmetic: the unsigned difference of positions divided
      by the stride read as unsigned, and the result read as `int32_t`. */
  datatype Plan = Plan(first: nat, depth: int)

  function PlanPrefetch(e: StreamEntry, pos: Offset, stride: int): Plan
    requires stride != 0 && -PAGE_LINES < stride < PAGE_LINES
  {
    var depth := ToInt32(Wrap32(e.lastPrefetchPos - e.lastPos) / Wrap32(stride));
    if depth < 1 then Plan(Wrap32(pos + stride), 1)
    else Plan(Wrap32(e.lastPrefetchPos + stride), depth)
  }

  /** The prefetches of a confident hit: the planned offset if it is in the
      page and not yet valid, then one stride further if the hit was short,
      the depth is below 8 and that offset too is free. */
  function IssuePrefetches(e: StreamEntry, pos: Offset, stride: int, short: bool, reqCycle: nat,
                           pf1: nat, pf2: nat): (r: Trained)
    requires EntryOk(e) && stride != 0 && -PAGE_LINES < stride < PAGE_LINES
    ensures EntryOk(r.entry)
  {
    var plan := PlanPrefetch(e, pos, stride);
    if plan.first < PAGE_LINES && !e.valid[plan.first] then
      var t: Offset := plan.first;
      var e1 := e.(valid := e.valid[t := true], times := e.times[t := AccessTimes(reqCycle, pf1)]);
      var t2 := Wrap32(t + stride);
      if short && plan.depth < 8 && t2 < PAGE_LINES && !e1.valid[t2] then
        var u: Offset := t2;
        Trained(e1.(valid := e1.valid[u := true], times := e1.times[u := AccessTimes(reqCycle, pf2)],
                    lastPrefetchPos := u), [t, u])
      else Trained(e1.(lastPrefetchPos := t), [t])
    else Trained(e, [])
  }

  /** Whether a stride mismatch switches the entry to the new stride. */
  predicate SwitchesStride(e: StreamEntry, stride: int, p: SatParams) {
    && !SatPred(SatDec(e.conf), p)
    && stride != 0 && stride != e.stride
    && stride == e.lastPos - e.lastLastPos
  }

  function Train(e: StreamEntry, pos: Offset, short: bool, reqCycle: nat, p: SatParams,
                 pf1: nat, pf2: nat): (r: Trained)
    requires EntryOk(e)
    ensures EntryOk(r.entry)
  {
    // both positions are below 64, so the uint32 difference read as int32 is exact
    var stride := pos - e.lastPos;
    var trained :=
      if e.stride == stride then
        var e1 := e.(conf := SatInc(e.conf, p));
        if SatPred(e1.conf, p) then IssuePrefetches(e1, pos, stride, short, reqCycle, pf1, pf2)
        else Trained(e1, [])
      else
        var e1 := if SwitchesStride(e, stride, p) then e.(conf := p.init, stride := stride)
                  else e.(conf := SatDec(e.conf));
        Trained(e1.(lastPrefetchPos := pos), []);
    Trained(trained.entry.(lastLastPos := e.lastPos, lastPos := pos), trained.targets)
  }

  /** The outcome of a demand access to a page the table holds. */
  datatype HitResult = HitResult(entry: StreamEntry, resp: nat, targets: seq<Offset>)

  function StreamHit(e: StreamEntry, pos: Offset, resp: nat, reqCycle: nat, p: SatParams,
                     pf1: nat, pf2: nat): (r: HitResult)
    requires EntryOk(e)
    ensures EntryOk(r.entry)
  {
    var c := ConsumePrefetch(e, pos, resp);
    var t := Train(c.entry, pos, c.short, reqCycle, p, pf1, pf2);
    HitResult(t.entry, c.resp, t.targets)
  }

  /** A hit on a prefetched offset closes it and answers at the later of the
      prefetch's and the demand's response; otherwise the demand's response
      stands. The hit always shifts the position history. */
  lemma StreamHitResponse(e: StreamEntry, pos: Offset, resp: nat, reqCycle: nat, p: SatParams, pf1: nat, pf2: nat)
    requires EntryOk(e)
    ensures var r := StreamHit(e, pos, resp, reqCycle, p, pf1, pf2);
            && r.resp == (if e.valid[pos] then Max(e.times[pos].respCycle, resp) else resp)
            && (e.valid[pos] ==> r.entry.lastCycle >= r.resp)
            && (!e.valid[pos] ==> r.entry.lastCycle == e.lastCycle)
            && r.entry.lastLastPos == e.lastPos && r.entry.lastPos == pos
            && r.entry.ts == e.ts
  {
  }

  /** Which offsets are valid after a hit: those valid before except the one
      hit, plus the prefetched ones. */
  lemma StreamHitValid(e: StreamEntry, pos: Offset, resp: nat, reqCycle: nat, p: SatParams, pf1: nat, pf2: nat)
    requires EntryOk(e)
    ensures var r := StreamHit(e, pos, resp, reqCycle, p, pf1, pf2);
            forall k :: 0 <= k < PAGE_LINES ==>
              r.entry.valid[k] == ((e.valid[k] && k != pos) || k in r.targets)
  {
    var c := ConsumePrefetch(e, pos, resp);
    var r := StreamHit(e, pos, resp, reqCycle, p, pf1, pf2);
    assert forall k :: 0 <= k < PAGE_LINES ==> c.entry.valid[k] == (e.valid[k] && k != pos);
  }

  /** What `IssuePrefetches` does to the entry it is given. */
  lemma IssuePrefetchesFacts(e: StreamEntry, pos: Offset, stride: int, short: bool, reqCycle: nat, pf1: nat, pf2: nat)
    requires EntryOk(e) && stride != 0 && -PAGE_LINES < stride < PAGE_LINES
    ensures var r := IssuePrefetches(e, pos, stride, short, reqCycle, pf1, pf2);
            var plan := PlanPrefetch(e, pos, stride);
            && |r.targets| <= 2
            && (|r.targets| == 0 ==> r.entry == e)
            && (|r.targets| > 0 ==>
                  && r.targets[0] == plan.first && !e.valid[r.targets[0]] && r.entry.valid[r.targets[0]]
                  && r.entry.times[r.targets[0]] == AccessTimes(reqCycle, pf1)
                  && r.entry.lastPrefetchPos == r.targets[|r.targets| - 1])
            && (|r.targets| == 2 ==>
                  && short && plan.depth < 8 && r.targets[1] == r.targets[0] + stride
                  && !e.valid[r.targets[1]] && r.entry.valid[r.targets[1]]
                  && r.entry.times[r.targets[1]] == AccessTimes(reqCycle, pf2))
            && r.entry.conf == e.conf && r.entry.stride == e.stride
  {
    var plan := PlanPrefetch(e, pos, stride);
    if plan.first < PAGE_LINES && !e.valid[plan.first] {
      var t2 := Wrap32(plan.first + stride);
      if t2 < PAGE_LINES {
        assert t2 == plan.first + stride;
      }
    }
  }

  /** Prefetch targets: at most two, each a line of the page that was not
      valid (the hit line aside), each then valid with its response time
      recorded; the second one follows the first by one stride and needs a
      short hit and a fetch depth below 8. Prefetches need a matching
      stride and enough confidence. */
  lemma StreamHitTargets(e: StreamEntry, pos: Offset, resp: nat, reqCycle: nat, p: SatParams, pf1: nat, pf2: nat)
    requires EntryOk(e)
    ensures var r := StreamHit(e, pos, resp, reqCycle, p, pf1, pf2);
            var stride := pos - e.lastPos;
            && |r.targets| <= 2
            && (|r.targets| > 0 ==>
                  && e.stride == stride && SatPred(SatInc(e.conf, p), p)
                  && r.targets[0] == PlanPrefetch(e, pos, stride).first
                  && r.entry.times[r.targets[0]] == AccessTimes(reqCycle, pf1)
                  && r.entry.lastPrefetchPos == r.targets[|r.targets| - 1])
            && (|r.targets| == 2 ==>
                  && e.valid[pos] && e.times[pos].respCycle > resp
                  && PlanPrefetch(e, pos, stride).depth < 8
                  && r.targets[1] == r.targets[0] + stride
                  && r.entry.times[r.targets[1]] == AccessTimes(reqCycle, pf2))
            && (forall j :: 0 <= j < |r.targets| ==>
                  (!e.valid[r.targets[j]] || r.targets[j] == pos) && r.entry.valid[r.targets[j]])
  {
    var c := ConsumePrefetch(e, pos, resp);
    var stride := pos - e.lastPos;
    if e.stride == stride && SatPred(SatInc(e.conf, p), p) {
      var e1 := c.entry.(conf := SatInc(e.conf, p));
      assert PlanPrefetch(e1, pos, stride) == PlanPrefetch(e, pos, stride);
      IssuePrefetchesFacts(e1, pos, stride, c.short, reqCycle, pf1, pf2);
    }
  }

  /** A stride mismatch issues nothing and sets `lastPrefetchPos` to the
      hit offset; confidence drops, unless the stride switches, which
      happens exactly when the entry is no longer confident and the new
      stride is nonzero, new and equal to the previous one. A match keeps
      the stride and raises confidence. */
  lemma StreamHitTraining(e: StreamEntry, pos: Offset, resp: nat, reqCycle: nat, p: SatParams, pf1: nat, pf2: nat)
    requires EntryOk(e)
    ensures var r := StreamHit(e, pos, resp, reqCycle, p, pf1, pf2);
            var stride := pos - e.lastPos;
            && (e.stride != stride ==>
                  && r.targets == [] && r.entry.lastPrefetchPos == pos
                  && r.entry.stride == (if SwitchesStride(e, stride, p) then stride else e.stride)
                  && r.entry.conf == (if SwitchesStride(e, stride, p) then p.init else SatDec(e.conf)))
            && (e.stride == stride ==>
                  && r.entry.stride == e.stride && r.entry.conf == SatInc(e.conf, p)
                  && (r.targets == [] ==> r.entry.lastPrefetchPos == e.lastPrefetchPos))
  {
  }

  /** The address of the second prefetch, formed by adding the stride to
      the first request's address in 64-bit arithmetic, is the line of the
      second target in the same page. */
  lemma SecondPrefetchAddress(req: MemReq, t: Offset, stride: int)
    requires 0 <= t + stride < PAGE_LINES
    ensures Wrap64(PrefetchReq(req, t).lineAddr + stride) == PrefetchReq(req, t + stride).lineAddr
  {
  }

  // ---------------------------------------------------------------------
  // Stream prefetcher: the table

  datatype StreamTable = StreamTable(tags: seq<int>, entries: seq<StreamEntry>, timestamp: nat)

  predicate TableOk(st: StreamTable) {
    && |st.tags| == STREAM_ENTRIES && |st.entries| == STREAM_ENTRIES
    && forall k :: 0 <= k < STREAM_ENTRIES ==> EntryOk(st.entries[k]) && st.entries[k].ts <= st.timestamp
  }

  /** Index of the last tag among the first `n` that equals `page` (the
      tag scan keeps overwriting its candidate). */
  function LastMatch(tags: seq<int>, page: int, n: nat): (r: Option<nat>)
    requires n <= |tags|
    ensures r.Some? ==> r.value < n && tags[r.value] == page
    ensures r.Some? ==> forall j :: r.value < j < n ==> tags[j] != page
    ensures r.None? ==> forall j :: 0 <= j < n ==> tags[j] != page
  {
    if n == 0 then None
    else if tags[n - 1] == page then Some(n - 1)
    else LastMatch(tags, page, n - 1)
  }

  /** An entry not warmed after `reqCycle + 500` may be replaced. */
  predicate Eligible(e: StreamEntry, reqCycle: nat) {
    e.lastCycle <= reqCycle + WARM_CYCLES
  }

  /** The replacement candidate among the first `n` entries: the first
      eligible one of least timestamp, where the score to beat starts at
      2^64 - 1. */
  function Victim(es: seq<StreamEntry>, reqCycle: nat, n: nat): (r: Option<nat>)
    requires n <= |es|
    ensures r.Some? ==> r.value < n && Eligible(es[r.value], reqCycle) && es[r.value].ts < TWO_64 - 1
    ensures r.Some? ==> forall k :: 0 <= k < n && Eligible(es[k], reqCycle) ==> es[r.value].ts <= es[k].ts
    ensures r.Some? ==> forall k :: 0 <= k < r.value && Eligible(es[k], reqCycle) ==> es[r.value].ts < es[k].ts
    ensures r.None? ==> forall k :: 0 <= k < n && Eligible(es[k], reqCycle) ==> es[k].ts >= TWO_64 - 1
  {
    if n == 0 then None
    else
      var prev := Victim(es, reqCycle, n - 1);
      var score := if prev.Some? then es[prev.value].ts else TWO_64 - 1;
      if Eligible(es[n - 1], reqCycle) && es[n - 1].ts < score then Some(n - 1) else prev
  }

  /** The whole effect of one `access` on the table, the response and the
      prefetch requests sent to the parent. */
  datatype StreamOutcome = StreamOutcome(table: StreamTable, resp: nat, issued: seq<MemReq>)

  function StreamAccess(st: StreamTable, req: MemReq, parent: nat -> nat, p: SatParams,
                        initialStride: int): StreamOutcome
    requires TableOk(st)
  {
    if req.kind != GETS then StreamOutcome(st, parent(0), [])
    else
      var page := PageOf(req.lineAddr);
      var pos := OffsetOf(req.lineAddr);
      match LastMatch(st.tags, page, STREAM_ENTRIES)
      case Some(k) =>
        var h := StreamHit(st.entries[k].(ts := st.timestamp), pos, parent(0), req.cycle, p, parent(1), parent(2));
        StreamOutcome(StreamTable(st.tags, st.entries[k := h.entry], st.timestamp + 1),
                      h.resp, PrefetchReqs(req, h.targets))
      case None =>
        match Victim(st.entries, req.cycle, STREAM_ENTRIES)
        case None => StreamOutcome(st, parent(0), [])
        case Some(v) =>
          var born := Alloc(st.entries[v], req.cycle, p, initialStride).(lastPos := pos, ts := st.timestamp);
          StreamOutcome(StreamTable(st.tags[v := page], st.entries[v := born], st.timestamp + 1),
                        parent(0), [])
  }

  /** Requests other than GETS (including stores and writebacks) go to the
      parent and leave the table alone. */
  lemma StreamNonGets(st: StreamTable, req: MemReq, parent: nat -> nat, p: SatParams, initialStride: int)
    requires TableOk(st) && req.kind != GETS
    ensures StreamAccess(st, req, parent, p, initialStride) == StreamOutcome(st, parent(0), [])
  {
  }

  /** An access keeps the table well formed, with every timestamp at most
      the counter, as long as the initial stride is nonzero. */
  lemma StreamAccessOk(st: StreamTable, req: MemReq, parent: nat -> nat, p: SatParams, initialStride: int)
    requires TableOk(st) && initialStride != 0
    ensures TableOk(StreamAccess(st, req, parent, p, initialStride).table)
  {
    if req.kind == GETS {
      var r := StreamAccess(st, req, parent, p, initialStride).table;
      forall k | 0 <= k < STREAM_ENTRIES
        ensures EntryOk(r.entries[k]) && r.entries[k].ts <= r.timestamp
      {
      }
    }
  }

  /** A page miss: the victim is the first eligible entry of least
      timestamp; it takes the page as its tag, the offset as its last
      position and the next timestamp, which is then larger than every
      other entry's. With no candidate nothing changes. Either way the
      demand's response is returned and nothing is prefetched. */
  lemma StreamMiss(st: StreamTable, req: MemReq, parent: nat -> nat, p: SatParams, initialStride: int)
    requires TableOk(st) && req.kind == GETS
    requires LastMatch(st.tags, PageOf(req.lineAddr), STREAM_ENTRIES).None?
    ensures var r := StreamAccess(st, req, parent, p, initialStride);
            var v := Victim(st.entries, req.cycle, STREAM_ENTRIES);
            && r.resp == parent(0) && r.issued == []
            && (v.None? ==> r.table == st)
            && (v.Some? ==>
                  && (forall k :: 0 <= k < STREAM_ENTRIES && Eligible(st.entries[k], req.cycle) ==>
                        st.entries[v.value].ts <= st.entries[k].ts)
                  && r.table.tags == st.tags[v.value := PageOf(req.lineAddr)]
                  && r.table.entries[v.value].lastPos == OffsetOf(req.lineAddr)
                  && r.table.entries[v.value].ts == st.timestamp
                  && r.table.timestamp == st.timestamp + 1
                  && (forall k :: 0 <= k < STREAM_ENTRIES && k != v.value ==>
                        r.table.entries[k] == st.entries[k] && r.table.entries[k].ts <= r.table.entries[v.value].ts))
  {
  }

  /** A page hit: only the hit entry changes, it takes the next timestamp,
      and its prefetches go to the parent as requests for lines of the same
      page. */
  lemma StreamHitEntry(st: StreamTable, req: MemReq, parent: nat -> nat, p: SatParams, initialStride: int)
    requires TableOk(st) && req.kind == GETS
    requires LastMatch(st.tags, PageOf(req.lineAddr), STREAM_ENTRIES).Some?
    ensures var r := StreamAccess(st, req, parent, p, initialStride);
            var k := LastMatch(st.tags, PageOf(req.lineAddr), STREAM_ENTRIES).value;
            && r.table.tags == st.tags && r.table.timestamp == st.timestamp + 1
            && r.table.entries[k].ts == st.timestamp
            && (forall j :: 0 <= j < STREAM_ENTRIES && j != k ==> r.table.entries[j] == st.entries[j])
            && (forall j :: 0 <= j < |r.issued| ==>
                  && r.issued[j].kind == GETS && r.issued[j].prefetch
                  && PageOf(r.issued[j].lineAddr) == PageOf(req.lineAddr))
  {
    var r := StreamAccess(st, req, parent, p, initialStride);
    var k := LastMatch(st.tags, PageOf(req.lineAddr), STREAM_ENTRIES).value;
    var h := StreamHit(st.entries[k].(ts := st.timestamp), OffsetOf(req.lineAddr), parent(0), req.cycle, p, parent(1), parent(2));
    StreamHitResponse(st.entries[k].(ts := st.timestamp), OffsetOf(req.lineAddr), parent(0), req.cycle, p, parent(1), parent(2));
    forall j | 0 <= j < |r.issued|
      ensures r.issued[j].kind == GETS && r.issued[j].prefetch && PageOf(r.issued[j].lineAddr) == PageOf(req.lineAddr)
    {
      PrefetchReqsAt(req, h.targets, j);
    }
  }

  /** `StreamPrefetcher`: the tag and entry arrays and the timestamp
      counter, updated in place by `access`. */
  class StreamPrefetcher {
    const params: SatParams
    const initialStride: int
    const tag: array<int>
    const table: array<StreamEntry>
    var timestamp: nat

    ghost predicate Valid()
      reads this, tag, table
    {
      && tag.Length == STREAM_ENTRIES && table.Length == STREAM_ENTRIES
      && initialStride != 0
      && TableOk(State())
    }

    ghost function State(): StreamTable
      reads this, tag, table
    {
      StreamTable(tag[..], table[..], timestamp)
    }

    /** A table of blank entries with tag 0 and timestamp 0. */
    constructor (p: SatParams, stride0: int)
      requires stride0 != 0
      ensures Valid() && fresh(tag) && fresh(table)
      ensures params == p && initialStride == stride0 && timestamp == 0
      ensures forall k :: 0 <= k < STREAM_ENTRIES ==> tag[k] == 0 && table[k] == BlankEntry(p, stride0)
    {
      params := p;
      initialStride := stride0;
      timestamp := 0;
      tag := new int[STREAM_ENTRIES](_ => 0);
      table := new StreamEntry[STREAM_ENTRIES](_ => BlankEntry(p, stride0));
    }

    /** The tag scan: the last entry whose tag is the page. */
    method FindTag(page: int) returns (idx: Option<nat>)
      requires Valid()
      ensures idx == LastMatch(tag[..], page, STREAM_ENTRIES)
    {
      idx := None;
      for i := 0 to STREAM_ENTRIES
        invariant idx == LastMatch(tag[..], page, i)
      {
        if tag[i] == page {
          idx := Some(i);
        }
      }
    }

    /** The LRU scan over the entries that are not warm. */
    method FindVictim(reqCycle: nat) returns (cand: Option<nat>)
      requires Valid()
      ensures cand == Victim(table[..], reqCycle, STREAM_ENTRIES)
    {
      cand := None;
      var candScore: nat := TWO_64 - 1;
      for i := 0 to STREAM_ENTRIES
        invariant cand == Victim(table[..], reqCycle, i)
        invariant candScore == if cand.Some? then table[cand.value].ts else TWO_64 - 1
      {
        if table[i].lastCycle <= reqCycle + WARM_CYCLES && table[i].ts < candScore {
          cand := Some(i);
          candScore := table[i].ts;
        }
      }
    }

    /** `access(req)`: returns the response cycle and the prefetch requests
        sent to the parent. */
    method Access(req: MemReq, parent: nat -> nat) returns (resp: nat, issued: seq<MemReq>)
      requires Valid()
      modifies tag, table, this`timestamp
      ensures Valid()
      ensures StreamOutcome(State(), resp, issued) == StreamAccess(old(State()), req, parent, params, initialStride)
    {
      ghost var st := State();
      StreamAccessOk(st, req, parent, params, initialStride);
      resp := parent(0);
      issued := [];
      if req.kind != GETS {
        return;
      }
      var page := PageOf(req.lineAddr);
      var pos := OffsetOf(req.lineAddr);
      var idx := FindTag(page);
      if idx.None? {
        var cand := FindVictim(req.cycle);
        if cand.Some? {
          var v := cand.value;
          table[v] := Alloc(table[v], req.cycle, params, initialStride).(lastPos := pos, ts := timestamp);
          timestamp := timestamp + 1;
          tag[v] := page;
        }
      } else {
        var k := idx.value;
        var h := StreamHit(table[k].(ts := timestamp), pos, resp, req.cycle, params, parent(1), parent(2));
        timestamp := timestamp + 1;
        table[k] := h.entry;
        resp := h.resp;
        issued := PrefetchReqs(req, h.targets);
      }
      assert State() == StreamAccess(st, req, parent, params, initialStride).table;
    }
  }

  // ---------------------------------------------------------------------
  // AMPM prefetcher

  /** A tracked page: its number, the cycle of its last access, the lines
      demanded and the lines prefetched. */
  datatype AmpmPage = AmpmPage(page: int, lru: nat, accessMap: seq<bool>, pfMap: seq<bool>)

  predicate PageOk(pg: AmpmPage) {
    |pg.accessMap| == PAGE_LINES && |pg.pfMap| == PAGE_LINES
  }

  predicate PagesOk(pages: seq<AmpmPage>) {
    |pages| > 0 && forall k :: 0 <= k < |pages| ==> PageOk(pages[k])
  }

  function Cleared(): (r: seq<bool>)
    ensures |r| == PAGE_LINES && forall k :: 0 <= k < PAGE_LINES ==> !r[k]
  {
    seq(PAGE_LINES, _ => false)
  }

  /** The first tracked page at or after `from` with the given number. */
  function FirstPage(pages: seq<AmpmPage>, page: int, from: nat): (r: Option<nat>)
    requires from <= |pages|
    ensures r.Some? ==> from <= r.value < |pages| && pages[r.value].page == page
    ensures r.Some? ==> forall k :: from <= k < r.value ==> pages[k].page != page
    ensures r.None? ==> forall k :: from <= k < |pages| ==> pages[k].page != page
    decreases |pages| - from
  {
    if from == |pages| then None
    else if pages[from].page == page then Some(from)
    else FirstPage(pages, page, from + 1)
  }

  /** The first page of least `lru` among the first `n`. */
  function Oldest(pages: seq<AmpmPage>, n: nat): (r: nat)
    requires 0 < n <= |pages|
    ensures r < n
    ensures forall k :: 0 <= k < n ==> pages[r].lru <= pages[k].lru
    ensures forall k :: 0 <= k < r ==> pages[r].lru < pages[k].lru
  {
    if n == 1 then 0
    else
      var b := Oldest(pages, n - 1);
      if pages[n - 1].lru < pages[b].lru then n - 1 else b
  }

  /** Distance of a target from the accessed offset in the scan direction. */
  function Distance(off: Offset, up: bool, t: int): int {
    if up then t - off else off - t
  }

  /** The pattern that justifies a prefetch of line `t`: the lines one and
      two strides behind it (seen from the accessed offset) were demanded,
      for a stride of 1 to 16 that keeps every index in the page. */
  predicate Supported(acc: seq<bool>, off: Offset, up: bool, t: int)
    requires |acc| == PAGE_LINES
  {
    var k := Distance(off, up, t);
    var c1 := if up then off - k else off + k;
    var c2 := if up then off - 2 * k else off + 2 * k;
    && 1 <= k <= 16 && 0 <= t < PAGE_LINES && 0 <= c2 < PAGE_LINES
    && acc[c1] && acc[c2]
  }

  datatype ScanResult = ScanResult(pfMap: seq<bool>, targets: seq<Offset>)

  /** One direction of prefetching, from stride `i` on, with the lines
      `issued` already prefetched in this direction (in order). */
  function PrefetchScan(acc: seq<bool>, pf: seq<bool>, off: Offset, up: bool, degree: nat,
                        i: nat, issued: seq<Offset>): (r: ScanResult)
    requires |acc| == PAGE_LINES && |pf| == PAGE_LINES && 1 <= i
    ensures |r.pfMap| == PAGE_LINES
    decreases 16 + 1 - i
  {
    var c1 := if up then off - i else off + i;
    var c2 := if up then off - 2 * i else off + 2 * i;
    var t := if up then off + i else off - i;
    if i > 16 || !(0 <= c2 < PAGE_LINES) || !(0 <= t < PAGE_LINES) || |issued| >= degree then
      ScanResult(pf, issued)
    else
      // a line already demanded or prefetched is skipped
      var issue := !acc[t] && !pf[t] && acc[c1] && acc[c2];
      PrefetchScan(acc, if issue then pf[t := true] else pf, off, up, degree, i + 1,
                   if issue then issued + [t as Offset] else issued)
  }

  /** A scan only appends to the lines already issued. */
  lemma {:induction false} PrefetchScanPrefix(acc: seq<bool>, pf: seq<bool>, off: Offset, up: bool,
                                              degree: nat, i: nat, issued: seq<Offset>)
    requires |acc| == PAGE_LINES && |pf| == PAGE_LINES && 1 <= i
    ensures |issued| <= |PrefetchScan(acc, pf, off, up, degree, i, issued).targets|
    ensures forall j :: 0 <= j < |issued| ==> PrefetchScan(acc, pf, off, up, degree, i, issued).targets[j] == issued[j]
    decreases 16 + 1 - i
  {
    var r := PrefetchScan(acc, pf, off, up, degree, i, issued);
    var c1 := if up then off - i else off + i;
    var c2 := if up then off - 2 * i else off + 2 * i;
    var t := if up then off + i else off - i;
    if !(i > 16 || !(0 <= c2 < PAGE_LINES) || !(0 <= t < PAGE_LINES) || |issued| >= degree) {
      if !acc[t] && !pf[t] && acc[c1] && acc[c2] {
        assert r == PrefetchScan(acc, pf[t := true], off, up, degree, i + 1, issued + [t as Offset]);
        PrefetchScanPrefix(acc, pf[t := true], off, up, degree, i + 1, issued + [t as Offset]);
      } else {
        assert r == PrefetchScan(acc, pf, off, up, degree, i + 1, issued);
        PrefetchScanPrefix(acc, pf, off, up, degree, i + 1, issued);
      }
    }
  }

  /** A scan issues at most `degree` prefetches in its direction. */
  lemma {:induction false} PrefetchScanCount(acc: seq<bool>, pf: seq<bool>, off: Offset, up: bool,
                                             degree: nat, i: nat, issued: seq<Offset>)
    requires |acc| == PAGE_LINES && |pf| == PAGE_LINES && 1 <= i && |issued| <= degree
    ensures |PrefetchScan(acc, pf, off, up, degree, i, issued).targets| <= degree
    decreases 16 + 1 - i
  {
    var r := PrefetchScan(acc, pf, off, up, degree, i, issued);
    var c1 := if up then off - i else off + i;
    var c2 := if up then off - 2 * i else off + 2 * i;
    var t := if up then off + i else off - i;
    if !(i > 16 || !(0 <= c2 < PAGE_LINES) || !(0 <= t < PAGE_LINES) || |issued| >= degree) {
      if !acc[t] && !pf[t] && acc[c1] && acc[c2] {
        assert r == PrefetchScan(acc, pf[t := true], off, up, degree, i + 1, issued + [t as Offset]);
        PrefetchScanCount(acc, pf[t := true], off, up, degree, i + 1, issued + [t as Offset]);
      } else {
        assert r == PrefetchScan(acc, pf, off, up, degree, i + 1, issued);
        PrefetchScanCount(acc, pf, off, up, degree, i + 1, issued);
      }
    }
  }

  /** A line a scan from stride `i` on may prefetch: justified by the
      access pattern, at least `i` lines out and not demanded. */
  predicate Justified(acc: seq<bool>, off: Offset, up: bool, i: nat, t: Offset)
    requires |acc| == PAGE_LINES
  {
    Supported(acc, off, up, t) && Distance(off, up, t) >= i && !acc[t]
  }

  /** Every line a scan adds is justified by the access pattern. */
  lemma {:induction false} PrefetchScanTargets(acc: seq<bool>, pf: seq<bool>, off: Offset, up: bool,
                                               degree: nat, i: nat, issued: seq<Offset>)
    requires |acc| == PAGE_LINES && |pf| == PAGE_LINES && 1 <= i
    ensures forall j :: |issued| <= j < |PrefetchScan(acc, pf, off, up, degree, i, issued).targets| ==>
              Justified(acc, off, up, i, PrefetchScan(acc, pf, off, up, degree, i, issued).targets[j])
    decreases 16 + 1 - i
  {
    var r := PrefetchScan(acc, pf, off, up, degree, i, issued);
    var c1 := if up then off - i else off + i;
    var c2 := if up then off - 2 * i else off + 2 * i;
    var t := if up then off + i else off - i;
    if !(i > 16 || !(0 <= c2 < PAGE_LINES) || !(0 <= t < PAGE_LINES) || |issued| >= degree) {
      if !acc[t] && !pf[t] && acc[c1] && acc[c2] {
        var next := issued + [t as Offset];
        assert r == PrefetchScan(acc, pf[t := true], off, up, degree, i + 1, next);
        PrefetchScanTargets(acc, pf[t := true], off, up, degree, i + 1, next);
        PrefetchScanPrefix(acc, pf[t := true], off, up, degree, i + 1, next);
        assert r.targets[|issued|] == next[|issued|] == t;
        assert Supported(acc, off, up, t);
        forall j | |next| <= j < |r.targets|
          ensures Justified(acc, off, up, i, r.targets[j])
        {
          assert Justified(acc, off, up, i + 1, r.targets[j]);
        }
      } else {
        assert r == PrefetchScan(acc, pf, off, up, degree, i + 1, issued);
        PrefetchScanTargets(acc, pf, off, up, degree, i + 1, issued);
      }
    }
  }

  /** No line a scan adds had been prefetched before it. */
  lemma {:induction false} PrefetchScanFresh(acc: seq<bool>, pf: seq<bool>, off: Offset, up: bool,
                                             degree: nat, i: nat, issued: seq<Offset>)
    requires |acc| == PAGE_LINES && |pf| == PAGE_LINES && 1 <= i
    ensures forall j :: |issued| <= j < |PrefetchScan(acc, pf, off, up, degree, i, issued).targets| ==>
              !pf[PrefetchScan(acc, pf, off, up, degree, i, issued).targets[j]]
    decreases 16 + 1 - i
  {
    var r := PrefetchScan(acc, pf, off, up, degree, i, issued);
    var c1 := if up then off - i else off + i;
    var c2 := if up then off - 2 * i else off + 2 * i;
    var t := if up then off + i else off - i;
    if !(i > 16 || !(0 <= c2 < PAGE_LINES) || !(0 <= t < PAGE_LINES) || |issued| >= degree) {
      if !acc[t] && !pf[t] && acc[c1] && acc[c2] {
        var next := issued + [t as Offset];
        assert r == PrefetchScan(acc, pf[t := true], off, up, degree, i + 1, next);
        PrefetchScanFresh(acc, pf[t := true], off, up, degree, i + 1, next);
        PrefetchScanPrefix(acc, pf[t := true], off, up, degree, i + 1, next);
        assert r.targets[|issued|] == next[|issued|] == t;
      } else {
        assert r == PrefetchScan(acc, pf, off, up, degree, i + 1, issued);
        PrefetchScanFresh(acc, pf, off, up, degree, i + 1, issued);
      }
    }
  }

  /** A scan's final prefetch map is the initial one plus exactly the lines
      in its list (the lines issued before it are already marked). */
  lemma {:induction false} PrefetchScanMap(acc: seq<bool>, pf: seq<bool>, off: Offset, up: bool,
                                           degree: nat, i: nat, issued: seq<Offset>)
    requires |acc| == PAGE_LINES && |pf| == PAGE_LINES && 1 <= i
    requires forall j :: 0 <= j < |issued| ==> pf[issued[j]]
    ensures forall x :: 0 <= x < PAGE_LINES ==>
              PrefetchScan(acc, pf, off, up, degree, i, issued).pfMap[x]
              == (pf[x] || x in PrefetchScan(acc, pf, off, up, degree, i, issued).targets)
    decreases 16 + 1 - i
  {
    var r := PrefetchScan(acc, pf, off, up, degree, i, issued);
    var c1 := if up then off - i else off + i;
    var c2 := if up then off - 2 * i else off + 2 * i;
    var t := if up then off + i else off - i;
    if i > 16 || !(0 <= c2 < PAGE_LINES) || !(0 <= t < PAGE_LINES) || |issued| >= degree {
      assert r.targets == issued;
    } else if !acc[t] && !pf[t] && acc[c1] && acc[c2] {
      var next := issued + [t as Offset];
      var pf' := pf[t := true];
      assert r == PrefetchScan(acc, pf', off, up, degree, i + 1, next);
      assert forall j :: 0 <= j < |next| ==> pf'[next[j]];
      PrefetchScanPrefix(acc, pf', off, up, degree, i + 1, next);
      PrefetchScanMap(acc, pf', off, up, degree, i + 1, next);
      assert r.targets[|issued|] == r.targets[..|next|][|issued|] == t;
    } else {
      assert r == PrefetchScan(acc, pf, off, up, degree, i + 1, issued);
      PrefetchScanMap(acc, pf, off, up, degree, i + 1, issued);
    }
  }

  /** One direction of the prefetching loop of `access`, over copies of the
      page's maps: the prefetched lines, in order, and the updated prefetch
      map. */
  method ScanPage(acc: seq<bool>, pf0: seq<bool>, off: Offset, up: bool, degree: nat)
    returns (pf: seq<bool>, targets: seq<Offset>)
    requires |acc| == PAGE_LINES && |pf0| == PAGE_LINES
    ensures ScanResult(pf, targets) == PrefetchScan(acc, pf0, off, up, degree, 1, [])
  {
    pf := pf0;
    targets := [];
    var count := 0;
    var i := 1;
    while i <= 16
      invariant 1 <= i <= 16 + 1 && |pf| == PAGE_LINES && count == |targets|
      invariant PrefetchScan(acc, pf0, off, up, degree, 1, []) == PrefetchScan(acc, pf, off, up, degree, i, targets)
    {
      var c1 := if up then off - i else off + i;
      var c2 := if up then off - 2 * i else off + 2 * i;
      var t := if up then off + i else off - i;
      if up && c2 < 0 { break; }
      if !up && c2 > 63 { break; }
      if up && t > 63 { break; }
      if !up && t < 0 { break; }
      if count >= degree { break; }
      if acc[t] || pf[t] {
        i := i + 1;
        continue;
      }
      if acc[c1] && acc[c2] {
        pf := pf[t := true];
        targets := targets + [t as Offset];
        count := count + 1;
      }
      i := i + 1;
    }
  }

  /** The page an access to `page` works on: the first one tracking it, or
      else the first least recently used. */
  function AmpmSlot(pages: seq<AmpmPage>, page: int): (r: nat)
    requires PagesOk(pages)
    ensures r < |pages|
  {
    match FirstPage(pages, page, 0)
    case Some(k) => k
    case None => Oldest(pages, |pages|)
  }

  /** That page after a replacement (if any) and the access's marking. */
  function AmpmTouched(pages: seq<AmpmPage>, req: MemReq): (r: AmpmPage)
    requires PagesOk(pages)
    ensures PageOk(r)
  {
    var page := PageOf(req.lineAddr);
    var idx := AmpmSlot(pages, page);
    var base := if FirstPage(pages, page, 0).Some? then pages[idx]
                else pages[idx].(page := page, accessMap := Cleared(), pfMap := Cleared());
    base.(lru := req.cycle, accessMap := base.accessMap[OffsetOf(req.lineAddr) := true])
  }

  datatype AmpmOutcome = AmpmOutcome(pages: seq<AmpmPage>, resp: nat, issued: seq<MemReq>)

  /** The whole effect of one `access`: the pages, the response and the
      prefetch requests sent to the parent (positive direction first). */
  function AmpmAccess(pages: seq<AmpmPage>, req: MemReq, degree: nat, parent: nat -> nat): AmpmOutcome
    requires PagesOk(pages)
  {
    if req.kind != GETS then AmpmOutcome(pages, parent(0), [])
    else
      var off := OffsetOf(req.lineAddr);
      var pg := AmpmTouched(pages, req);
      var up := PrefetchScan(pg.accessMap, pg.pfMap, off, true, degree, 1, []);
      var down := PrefetchScan(pg.accessMap, up.pfMap, off, false, degree, 1, []);
      AmpmOutcome(pages[AmpmSlot(pages, PageOf(req.lineAddr)) := pg.(pfMap := down.pfMap)], parent(0),
                  PrefetchReqs(req, up.targets + down.targets))
  }

  /** Requests other than GETS go to the parent and change no page. */
  lemma AmpmNonGets(pages: seq<AmpmPage>, req: MemReq, degree: nat, parent: nat -> nat)
    requires PagesOk(pages) && req.kind != GETS
    ensures AmpmAccess(pages, req, degree, parent) == AmpmOutcome(pages, parent(0), [])
  {
  }

  /** A GETS works on the page that tracks it or, on a miss, on the first
      least recently used page, whose maps are cleared; that page then holds
      the page number, `lru` is the request's cycle and the accessed line is
      marked. No other page changes and the demand's response is returned. */
  lemma AmpmPageUpdate(pages: seq<AmpmPage>, req: MemReq, degree: nat, parent: nat -> nat)
    requires PagesOk(pages) && req.kind == GETS
    ensures var r := AmpmAccess(pages, req, degree, parent);
            var page := PageOf(req.lineAddr);
            var idx := AmpmSlot(pages, page);
            && r.resp == parent(0) && |r.pages| == |pages|
            && r.pages[idx].page == page && r.pages[idx].lru == req.cycle
            && r.pages[idx].accessMap[OffsetOf(req.lineAddr)]
            && (forall k :: 0 <= k < |pages| && k != idx ==> r.pages[k] == pages[k])
            && (FirstPage(pages, page, 0).None? ==>
                  && (forall k :: 0 <= k < |pages| ==> pages[k].page != page && pages[idx].lru <= pages[k].lru)
                  && (forall k :: 0 <= k < idx ==> pages[idx].lru < pages[k].lru)
                  && r.pages[idx].accessMap == Cleared()[OffsetOf(req.lineAddr) := true])
            && (FirstPage(pages, page, 0).Some? ==>
                  r.pages[idx].accessMap == pages[idx].accessMap[OffsetOf(req.lineAddr) := true])
  {
  }

  /** The prefetches of a GETS: at most `degree` per direction, each one
      justified by the marked access map, for a line of the same page that
      was neither demanded nor prefetched; afterwards the prefetch map is
      the old one plus exactly the issued lines. */
  lemma AmpmPrefetches(pages: seq<AmpmPage>, req: MemReq, degree: nat, parent: nat -> nat)
    requires PagesOk(pages) && req.kind == GETS
    ensures var r := AmpmAccess(pages, req, degree, parent);
            var off := OffsetOf(req.lineAddr);
            var pg := AmpmTouched(pages, req);
            var up := PrefetchScan(pg.accessMap, pg.pfMap, off, true, degree, 1, []);
            var down := PrefetchScan(pg.accessMap, up.pfMap, off, false, degree, 1, []);
            var idx := AmpmSlot(pages, PageOf(req.lineAddr));
            && r.issued == PrefetchReqs(req, up.targets + down.targets)
            && |up.targets| <= degree && |down.targets| <= degree
            && (forall j :: 0 <= j < |up.targets| ==>
                  Justified(pg.accessMap, off, true, 1, up.targets[j]) && !pg.pfMap[up.targets[j]])
            && (forall j :: 0 <= j < |down.targets| ==>
                  && Justified(pg.accessMap, off, false, 1, down.targets[j]) && !pg.pfMap[down.targets[j]]
                  && down.targets[j] !in up.targets)
            && (forall x :: 0 <= x < PAGE_LINES ==>
                  r.pages[idx].pfMap[x] == (pg.pfMap[x] || x in up.targets || x in down.targets))
  {
    var off := OffsetOf(req.lineAddr);
    var pg := AmpmTouched(pages, req);
    var up := PrefetchScan(pg.accessMap, pg.pfMap, off, true, degree, 1, []);
    PrefetchScanCount(pg.accessMap, pg.pfMap, off, true, degree, 1, []);
    PrefetchScanCount(pg.accessMap, up.pfMap, off, false, degree, 1, []);
    PrefetchScanTargets(pg.accessMap, pg.pfMap, off, true, degree, 1, []);
    PrefetchScanTargets(pg.accessMap, up.pfMap, off, false, degree, 1, []);
    var down := PrefetchScan(pg.accessMap, up.pfMap, off, false, degree, 1, []);
    PrefetchScanFresh(pg.accessMap, pg.pfMap, off, true, degree, 1, []);
    PrefetchScanFresh(pg.accessMap, up.pfMap, off, false, degree, 1, []);
    PrefetchScanMap(pg.accessMap, pg.pfMap, off, true, degree, 1, []);
    PrefetchScanMap(pg.accessMap, up.pfMap, off, false, degree, 1, []);
  }

  /** `AMPMPrefetcher`: the tracked pages, updated in place by `access`. */
  class AmpmPrefetcher {
    const degree: nat
    const pages: array<AmpmPage>

    ghost predicate Valid()
      reads this, pages
    {
      PagesOk(pages[..])
    }

    /** `pageCount` pages numbered 0 with clear maps and `lru` 0. */
    constructor (pageCount: nat, prefetchDegree: nat)
      requires pageCount > 0
      ensures Valid() && fresh(pages) && pages.Length == pageCount && degree == prefetchDegree
      ensures forall k :: 0 <= k < pageCount ==> pages[k] == AmpmPage(0, 0, Cleared(), Cleared())
    {
      degree := prefetchDegree;
      pages := new AmpmPage[pageCount](_ => AmpmPage(0, 0, Cleared(), Cleared()));
    }

    /** The page-hit scan, stopping at the first match. */
    method FindPage(page: int) returns (found: Option<nat>)
      requires Valid()
      ensures found == FirstPage(pages[..], page, 0)
    {
      found := None;
      var i := 0;
      while i < pages.Length
        invariant i <= pages.Length
        invariant FirstPage(pages[..], page, 0) == FirstPage(pages[..], page, i)
      {
        if pages[i].page == page {
          found := Some(i);
          break;
        }
        i := i + 1;
      }
    }

    /** The replacement scan: the first page of least `lru`. */
    method OldestPage() returns (idx: nat)
      requires Valid()
      ensures idx == Oldest(pages[..], pages.Length)
    {
      idx := 0;
      var lruCycle := pages[0].lru;
      for i := 0 to pages.Length
        invariant idx == Oldest(pages[..], Max(i, 1)) && lruCycle == pages[idx].lru
      {
        if pages[i].lru < lruCycle {
          idx := i;
          lruCycle := pages[idx].lru;
        }
      }
    }

    /** A replaced page takes the new number and clears both maps. */
    method ResetPage(idx: nat, page: int)
      requires Valid() && idx < pages.Length
      modifies pages
      ensures Valid()
      ensures pages[..] == old(pages[..])[idx := old(pages[idx]).(page := page, accessMap := Cleared(), pfMap := Cleared())]
    {
      pages[idx] := pages[idx].(page := page);
      for i := 0 to PAGE_LINES
        invariant PagesOk(pages[..])
        invariant pages[..] == old(pages[..])[idx := pages[idx]]
        invariant pages[idx].page == page && pages[idx].lru == old(pages[idx]).lru
        invariant forall k :: 0 <= k < i ==> !pages[idx].accessMap[k] && !pages[idx].pfMap[k]
      {
        pages[idx] := pages[idx].(accessMap := pages[idx].accessMap[i := false], pfMap := pages[idx].pfMap[i := false]);
      }
      assert pages[idx].accessMap == Cleared() && pages[idx].pfMap == Cleared();
    }


    /** The page a GETS works on, found or replaced, with its `lru` set to
        the request's cycle and the accessed line marked. */
    method TouchPage(req: MemReq) returns (idx: nat)
      requires Valid() && req.kind == GETS
      modifies pages
      ensures Valid() && idx < pages.Length
      ensures idx == AmpmSlot(old(pages[..]), PageOf(req.lineAddr))
      ensures pages[..] == old(pages[..])[idx := AmpmTouched(old(pages[..]), req)]
    {
      var page := PageOf(req.lineAddr);
      var found := FindPage(page);
      if found.None? {
        idx := OldestPage();
        ResetPage(idx, page);
      } else {
        idx := found.value;
      }
      var off := OffsetOf(req.lineAddr);
      pages[idx] := pages[idx].(lru := req.cycle, accessMap := pages[idx].accessMap[off := true]);
    }

    /** `access(req)`: returns the response cycle and the prefetch requests
        sent to the parent. */
    method Access(req: MemReq, parent: nat -> nat) returns (resp: nat, issued: seq<MemReq>)
      requires Valid()
      modifies pages
      ensures Valid()
      ensures AmpmOutcome(pages[..], resp, issued) == AmpmAccess(old(pages[..]), req, degree, parent)
    {
      resp := parent(0);
      issued := [];
      if req.kind != GETS {
        return;
      }
      var idx := TouchPage(req);
      var pg := pages[idx];
      var off := OffsetOf(req.lineAddr);
      var pf, up := ScanPage(pg.accessMap, pg.pfMap, off, true, degree);
      var pf', down := ScanPage(pg.accessMap, pf, off, false, degree);
      pages[idx] := pg.(pfMap := pf');
      issued := PrefetchReqs(req, up + down);
    }
  }

  /** `invalidate(req)` of both prefetchers: the request is forwarded to
      each child in turn and 0 is returned. */
  method ForwardInvalidate(numChildren: nat) returns (notified: seq<nat>, r: nat)
    ensures |notified| == numChildren && r == 0
    ensures forall k :: 0 <= k < numChildren ==> notified[k] == k
  {
    notified := [];
    for i := 0 to numChildren
      invariant |notified| == i && forall k :: 0 <= k < i ==> notified[k] == k
    {
      notified := notified + [i];
    }
    r := 0;
  }
}
