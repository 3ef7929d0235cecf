/** The memory request that zsim's memory objects exchange (`MemReq`),
    reduced to the fields the prefetchers and memory controllers read. */
module MemReqs {
  import opened Common

  /** `AccessType`; any other encoding is kept as `OtherType` so that the
      controllers' `panic` on it can be modelled. */
  datatype AccessType = GETS | GETX | PUTS | PUTX | OtherType(code: nat)

  /** The coherence state a memory writes back through `*req.state`. */
  datatype MESIState = I | S | E | M

  /** A request: its line address, type and cycle, the requesting core, and
      the flags `NOEXCL`, `IFETCH`, `PREFETCH` and `PREFETCH_TRACE`. */
  datatype MemReq = MemReq(lineAddr: Address, kind: AccessType, cycle: nat, coreId: nat,
                           noExcl: bool, ifetch: bool, prefetch: bool, prefetchTrace: bool)

  /** The state every memory model grants: writebacks leave the line
      invalid, a read is shared when exclusivity is refused and exclusive
      otherwise, and a write gets the line modified. */
  function GrantedState(req: MemReq): (r: Option<MESIState>)
    ensures r.None? <==> req.kind.OtherType?
    ensures req.kind in {PUTS, PUTX} ==> r == Some(I)
    ensures req.kind == GETX ==> r == Some(M)
    ensures req.kind == GETS ==> r == Some(if req.noExcl then S else E)
  {
    match req.kind
    case PUTS => Some(I)
    case PUTX => Some(I)
    case GETS => Some(if req.noExcl then S else E)
    case GETX => Some(M)
    case OtherType(_) => None
  }
}
