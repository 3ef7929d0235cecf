/** The trace readers of ramulator's `Trace` class, reduced to the logic of
    one line: `split_str` and the zsim, PISA and unfiltered line formats.
    Each reader is given the line `getline` produced (`None` when the
    stream is exhausted) and the values its reference out-parameters held
    before the call. */
module TraceParsers {
  import opened Common
  import opened CString
  import MemCtrls

  /** The request types the readers produce (`Request::Type`). */
  datatype ReqType = Read | Write | Instruction

  // ---------------------------------------------------------------------
  // split_str

  /** A word as `operator>>` reads it: at least one character, none of them
      white space. */
  predicate IsToken(t: string) {
    |t| > 0 && forall k :: 0 <= k < |t| ==> !IsSpace(t[k])
  }

  /** Index of the first white-space character at or after `i` (or `|s|`). */
  function WordEnd(s: string, i: nat): (j: nat)
    requires i <= |s|
    ensures i <= j <= |s|
    ensures forall k :: i <= k < j ==> !IsSpace(s[k])
    ensures j < |s| ==> IsSpace(s[j])
    decreases |s| - i
  {
    if i < |s| && !IsSpace(s[i]) then WordEnd(s, i + 1) else i
  }

  /** `split_str`: the words of `s`, in order, as reading an
      `istringstream` with `>>` until it fails yields them. */
  function SplitStr(s: string): (r: seq<string>)
    ensures forall k :: 0 <= k < |r| ==> IsToken(r[k])
    decreases |s|
  {
    if s == [] then []
    else if IsSpace(s[0]) then SplitStr(s[1..])
    else
      var j := WordEnd(s, 0);
      [s[..j]] + SplitStr(s[j..])
  }

  /** The characters of `s` that are not white space, in order. */
  function NonSpace(s: string): string {
    if s == [] then [] else (if IsSpace(s[0]) then [] else [s[0]]) + NonSpace(s[1..])
  }

  /** The words concatenated. */
  function Concat(ts: seq<string>): string {
    if ts == [] then [] else ts[0] + Concat(ts[1..])
  }

  lemma {:induction false} NonSpaceAppend(a: string, b: string)
    ensures NonSpace(a + b) == NonSpace(a) + NonSpace(b)
    decreases |a|
  {
    if a == [] {
      assert a + b == b;
    } else {
      var h: string := if IsSpace(a[0]) then [] else [a[0]];
      assert (a + b)[0] == a[0] && (a + b)[1..] == a[1..] + b;
      assert NonSpace(a + b) == h + NonSpace(a[1..] + b);
      NonSpaceAppend(a[1..], b);
      assert NonSpace(a) == h + NonSpace(a[1..]);
    }
  }

  lemma {:induction false} NonSpaceOfToken(t: string)
    requires forall k :: 0 <= k < |t| ==> !IsSpace(t[k])
    ensures NonSpace(t) == t
    decreases |t|
  {
    if t != [] {
      NonSpaceOfToken(t[1..]);
    }
  }

  /** `split_str` loses nothing but white space: its words, put back
      together, are exactly the non-space characters of the line. */
  lemma {:induction false} SplitStrKeepsText(s: string)
    ensures Concat(SplitStr(s)) == NonSpace(s)
    decreases |s|
  {
    if s != [] {
      if IsSpace(s[0]) {
        SplitStrKeepsText(s[1..]);
      } else {
        var j := WordEnd(s, 0);
        SplitStrKeepsText(s[j..]);
        assert SplitStr(s) == [s[..j]] + SplitStr(s[j..]);
        assert Concat(SplitStr(s)) == s[..j] + Concat(SplitStr(s[j..]));
        NonSpaceAppend(s[..j], s[j..]);
        NonSpaceOfToken(s[..j]);
        assert s[..j] + s[j..] == s;
      }
    }
  }

  /** A word followed by a space splits off as the first word. */
  lemma SplitStrCons(t: string, rest: string)
    requires IsToken(t)
    ensures SplitStr(t + " " + rest) == [t] + SplitStr(rest)
  {
    var s := t + " " + rest;
    assert s[|t|] == ' ';
    var j := WordEnd(s, 0);
    assert j == |t|;
    assert s[..j] == t;
    assert s[j..][1..] == rest;
  }

  /** The words of `"w0 w1 ... wn "`. */
  function Unwords(ts: seq<string>): string {
    if ts == [] then [] else ts[0] + " " + Unwords(ts[1..])
  }

  /** Splitting words written out with single spaces gives them back. */
  lemma {:induction false} SplitStrUnwords(ts: seq<string>)
    requires forall k :: 0 <= k < |ts| ==> IsToken(ts[k])
    ensures SplitStr(Unwords(ts)) == ts
    decreases |ts|
  {
    if ts != [] {
      SplitStrUnwords(ts[1..]);
      SplitStrCons(ts[0], Unwords(ts[1..]));
    }
  }

  // ---------------------------------------------------------------------
  // The readers' results

  /** The reference out-parameters a reader writes: `bubble_cnt`,
      `req_addr`, `req_type` and `tag`, which is `cpu_id` for the zsim reader
      and `size` for the PISA reader (the unfiltered reader has neither). */
  datatype Fields = Fields(bubbleCnt: int, reqAddr: int, reqType: ReqType, tag: nat)

  /** A reader's boolean result (`more`: a line was consumed) and its
      out-parameters after the call. */
  datatype Fetched = Fetched(more: bool, fields: Fields)

  /** A zsim line that cannot be used: it is still consumed, with
      `req_addr = -1` and every other out-parameter untouched. */
  function Skipped(prev: Fields): Fields {
    prev.(reqAddr := -1)
  }

  // ---------------------------------------------------------------------
  // get_zsim_request

  /** The tokens that name a request type in a zsim line. */
  predicate IsTypeToken(t: string) {
    t == "L" || t == "S" || t == "P" || t == "I"
  }

  /** The first type token at or after `from`. */
  function FindType(split: seq<string>, from: nat): (r: Option<nat>)
    ensures r.Some? ==> from <= r.value < |split| && IsTypeToken(split[r.value])
    ensures r.Some? ==> forall k :: from <= k < r.value ==> !IsTypeToken(split[k])
    ensures r.None? ==> forall k :: from <= k < |split| ==> !IsTypeToken(split[k])
    decreases |split| - from
  {
    if from >= |split| then None
    else if IsTypeToken(split[from]) then Some(from)
    else FindType(split, from + 1)
  }

  /** `type_position`: the index of the first type token, 0 when there is none. */
  function TypePosition(split: seq<string>): (r: nat)
    ensures (exists k :: 0 <= k < |split| && IsTypeToken(split[k])) ==>
              r < |split| && IsTypeToken(split[r]) && forall k :: 0 <= k < r ==> !IsTypeToken(split[k])
    ensures (forall k :: 0 <= k < |split| ==> !IsTypeToken(split[k])) ==> r == 0
  {
    match FindType(split, 0)
    case None => 0
    case Some(p) => p
  }

  /** The search loop of `get_zsim_request` for the type token. */
  method FindTypePosition(split: seq<string>) returns (typePosition: nat)
    ensures typePosition == TypePosition(split)
  {
    typePosition := 0;
    var i := 0;
    while i < |split|
      invariant 0 <= i <= |split|
      invariant FindType(split, i) == FindType(split, 0)
    {
      if IsTypeToken(split[i]) {
        typePosition := i;
        break;
      }
      i := i + 1;
    }
  }

  /** The request type a type token sets; a prefetch (`P`) keeps the previous one. */
  function ZsimType(t: string, prev: ReqType): (r: ReqType)
    ensures t == "L" ==> r == Read
    ensures t == "S" ==> r == Write
    ensures t == "I" ==> r == Instruction
    ensures t != "L" && t != "S" && t != "I" ==> r == prev
  {
    if t == "L" then Read else if t == "S" then Write else if t == "I" then Instruction else prev
  }

  /** The token-to-field logic of `get_zsim_request`, with the type token at
      `tp`: thread, processor and cycle are the three tokens before it and
      the decimal address the one after it. A line with fewer than five
      tokens, a type token too early or last, a processor above 512, or a
      token that `stoi`/`stoul` rejects is skipped. The unsigned fields wrap
      as `unsigned` does. */
  function ZsimFields(split: seq<string>, tp: nat, prev: Fields): (r: Fields)
    ensures |split| < 5 ==> r == Skipped(prev)
    ensures tp < 3 || tp + 1 >= |split| ==> r == Skipped(prev)
    ensures !ZsimAccepts(split, tp) ==> r == Skipped(prev)
    ensures ZsimAccepts(split, tp) ==>
              && r.tag == Wrap32(StoI(split[tp - 2]).value) <= 512
              && r.bubbleCnt == (if split[tp - 1] == "-" then 0 else Wrap32(StoI(split[tp - 1]).value))
              && r.reqAddr == ToInt64(StoUl(split[tp + 1], 10).value.value)
              && r.reqType == ZsimType(split[tp], prev.reqType)
  {
    if |split| < 5 || !(3 <= tp && tp + 1 < |split|) then Skipped(prev)
    else
      ZsimValues(StoI(split[tp - 3]), StoI(split[tp - 2]),
                 if split[tp - 1] != "-" then StoI(split[tp - 1]) else Some(0),
                 StoUl(split[tp + 1], 10), split[tp], prev)
  }

  /** A zsim line, split into words with the type token at `tp`, that
      `get_zsim_request` reads in full: at least five words, the type token
      neither among the first three nor last, thread and processor numbers
      `stoi` accepts, a processor number of at most 512 as `unsigned`, a
      cycle count that is `-` or a number, and an address `stoul` accepts. */
  predicate ZsimAccepts(split: seq<string>, tp: nat) {
    && 5 <= |split| && 3 <= tp && tp + 1 < |split|
    && StoI(split[tp - 3]).Some? && StoI(split[tp - 2]).Some?
    && Wrap32(StoI(split[tp - 2]).value) <= 512
    && (split[tp - 1] == "-" || StoI(split[tp - 1]).Some?)
    && StoUl(split[tp + 1], 10).Some?
  }

  /** The checks `get_zsim_request` makes on the converted numbers: a
      failed conversion or a processor above 512 skips the line, and
      otherwise the bubble count and the core id are `unsigned` values. */
  function ZsimValues(thread: Option<int>, proc: Option<int>, cycle: Option<int>, addr: Option<Conversion>,
                      t: string, prev: Fields): (r: Fields)
    ensures thread.None? || proc.None? || cycle.None? || addr.None? ==> r == Skipped(prev)
    ensures proc.Some? && Wrap32(proc.value) > 512 ==> r == Skipped(prev)
    ensures thread.Some? && proc.Some? && cycle.Some? && addr.Some? && Wrap32(proc.value) <= 512 ==>
              && 0 <= r.bubbleCnt < TWO_32 && r.tag <= 512
              && r.bubbleCnt == Wrap32(cycle.value) && r.tag == Wrap32(proc.value)
              && r.reqAddr == ToInt64(addr.value.value) && r.reqType == ZsimType(t, prev.reqType)
  {
    if thread.None? || proc.None? then Skipped(prev)
    else if Wrap32(proc.value) > 512 then Skipped(prev)
    else if cycle.None? || addr.None? then Skipped(prev)
    else Fields(Wrap32(cycle.value), ToInt64(addr.value.value), ZsimType(t, prev.reqType), Wrap32(proc.value))
  }

  /** `get_zsim_request` on one line: an exhausted stream or an empty line
      ends the trace; any other line is consumed. */
  function ZsimRequest(line: Option<string>, prev: Fields): (r: Fetched)
    ensures r.more <==> line.Some? && line.value != []
    ensures !r.more ==> r.fields == prev
    ensures r.more ==> r.fields == ZsimFields(SplitStr(line.value), TypePosition(SplitStr(line.value)), prev)
  {
    if line.None? || line.value == [] then Fetched(false, prev)
    else
      var split := SplitStr(line.value);
      Fetched(true, ZsimFields(split, TypePosition(split), prev))
  }

  /** `Trace::get_zsim_request`: the reader whose one-line result
      `ZsimRequest` defines, with the type search done by its loop. */
  method GetZsimRequest(line: Option<string>, prev: Fields) returns (r: Fetched)
    ensures r == ZsimRequest(line, prev)
  {
    if line.None? || line.value == [] {
      return Fetched(false, prev);
    }
    var split := SplitStr(line.value);
    var typePosition := FindTypePosition(split);
    r := Fetched(true, ZsimFields(split, typePosition, prev));
  }

  /** A consumed line is either skipped (only `req_addr` changes, to -1) or
      read in full with a processor number of at most 512; an exhausted
      stream or an empty line leaves the previous request untouched. */
  lemma ZsimOutcomes(line: Option<string>, prev: Fields)
    ensures var r := ZsimRequest(line, prev);
            && (r.more <==> line.Some? && line.value != [])
            && (!r.more ==> r.fields == prev)
            && (r.more ==> r.fields == Skipped(prev) || r.fields.tag <= 512)
  {
  }

  /** How `get_zsim_request` treats a non-empty line, by its words: fewer
      than five, no type token before the last word, or a first type token
      among the first three skip the line; a line read in full with `-` as
      its cycle count has no bubbles, and its type token sets the request
      type (`P` keeps the previous one). */
  lemma ZsimLineCases(line: string, prev: Fields)
    requires line != []
    ensures var split := SplitStr(line);
            var r := ZsimRequest(Some(line), prev);
            && r.more
            && (|split| < 5 ==> r.fields == Skipped(prev))
            && ((forall k :: 0 <= k < |split| ==> !IsTypeToken(split[k])) ==> r.fields == Skipped(prev))
            && ((forall k :: 0 <= k < |split| - 1 ==> !IsTypeToken(split[k])) ==> r.fields == Skipped(prev))
            && ((exists k :: 0 <= k < 3 && k < |split| && IsTypeToken(split[k])) ==> r.fields == Skipped(prev))
  {
  }

  /** What a zsim line read in full yields, by its type and cycle words. */
  lemma ZsimAcceptedLine(line: string, prev: Fields)
    requires line != [] && ZsimAccepts(SplitStr(line), TypePosition(SplitStr(line)))
    ensures var split := SplitStr(line);
            var tp := TypePosition(split);
            var r := ZsimRequest(Some(line), prev);
            && r.more && r.fields.reqAddr == ToInt64(StoUl(split[tp + 1], 10).value.value)
            && r.fields.tag <= 512
            && (split[tp - 1] == "-" ==> r.fields.bubbleCnt == 0)
            && (split[tp] == "I" ==> r.fields.reqType == Instruction)
            && (split[tp] == "L" ==> r.fields.reqType == Read)
            && (split[tp] == "S" ==> r.fields.reqType == Write)
            && (split[tp] == "P" ==> r.fields.reqType == prev.reqType)
  {
  }

  /** The zsim line format: `thread processor instructions type address`,
      single-spaced. */
  function ZsimLine(thread: int, processor: int, instrs: int, kind: char, addr: int): string {
    var r3 := [kind] + " " + IntString(addr);
    var r2 := IntString(instrs) + " " + r3;
    var r1 := IntString(processor) + " " + r2;
    IntString(thread) + " " + r1
  }

  /** The decimal rendering of an integer: a sign and digits, never empty,
      and a lone `-` never. */
  lemma IntStringChars(n: int)
    ensures |IntString(n)| > 0
    ensures forall k :: 0 <= k < |IntString(n)| ==> IntString(n)[k] == '-' || '0' <= IntString(n)[k] <= '9'
    ensures IntString(n)[0] == '-' ==> |IntString(n)| >= 2
  {
    var s := IntString(n);
    if n < 0 {
      var d := NatDigits(-n);
      assert s == "-" + d;
      assert forall k :: 1 <= k < |s| ==> s[k] == d[k - 1];
    }
  }

  lemma IntStringToken(n: int)
    ensures IsToken(IntString(n)) && !IsTypeToken(IntString(n)) && IntString(n) != "-"
  {
    IntStringChars(n);
    var s := IntString(n);
    assert forall k :: 0 <= k < |s| ==> !IsSpace(s[k]);
    assert s[0] != 'L' && s[0] != 'S' && s[0] != 'P' && s[0] != 'I';
  }

  lemma SplitStrToken(t: string)
    requires IsToken(t)
    ensures SplitStr(t) == [t]
  {
    assert WordEnd(t, 0) == |t|;
    assert t[..|t|] == t && t[|t|..] == [];
  }

  /** Five words written out single-spaced split back into those words. */
  lemma SplitFiveWords(w0: string, w1: string, w2: string, w3: string, w4: string)
    requires IsToken(w0) && IsToken(w1) && IsToken(w2) && IsToken(w3) && IsToken(w4)
    ensures SplitStr(w0 + " " + (w1 + " " + (w2 + " " + (w3 + " " + w4)))) == [w0, w1, w2, w3, w4]
  {
    var r3 := w3 + " " + w4;
    var r2 := w2 + " " + r3;
    var r1 := w1 + " " + r2;
    SplitStrToken(w4);
    SplitStrCons(w3, w4);
    assert SplitStr(r3) == [w3, w4];
    SplitStrCons(w2, r3);
    assert SplitStr(r2) == [w2, w3, w4];
    SplitStrCons(w1, r2);
    assert SplitStr(r1) == [w1, w2, w3, w4];
    SplitStrCons(w0, r1);
  }

  /** The five words of a zsim line. */
  lemma ZsimLineSplit(thread: int, processor: int, instrs: int, kind: char, addr: int)
    requires kind == 'L' || kind == 'S' || kind == 'P' || kind == 'I'
    ensures SplitStr(ZsimLine(thread, processor, instrs, kind, addr))
            == [IntString(thread), IntString(processor), IntString(instrs), [kind], IntString(addr)]
  {
    IntStringToken(thread);
    IntStringToken(processor);
    IntStringToken(instrs);
    IntStringToken(addr);
    SplitFiveWords(IntString(thread), IntString(processor), IntString(instrs), [kind], IntString(addr));
  }

  /** In a zsim line the type token is the fourth word. */
  lemma ZsimWordsType(thread: int, core: int, instrs: int, kind: char, addr: int)
    requires kind == 'L' || kind == 'S' || kind == 'P' || kind == 'I'
    ensures TypePosition([IntString(thread), IntString(core), IntString(instrs), [kind], IntString(addr)]) == 3
  {
    var split := [IntString(thread), IntString(core), IntString(instrs), [kind], IntString(addr)];
    IntStringToken(thread);
    IntStringToken(core);
    IntStringToken(instrs);
    assert FindType(split, 3) == Some(3);
    assert FindType(split, 0) == Some(3);
  }

  /** The words of a zsim line whose numbers fit, and what `stoi`/`stoul`
      read from them. */
  lemma ZsimLineWords(thread: int, core: nat, instrs: int, kind: char, addr: nat)
    returns (w0: string, w1: string, w2: string, w4: string)
    requires INT_MIN <= thread <= INT_MAX && core <= 512 && 0 <= instrs <= INT_MAX && addr < TWO_64
    requires kind == 'L' || kind == 'S' || kind == 'P' || kind == 'I'
    ensures ZsimLine(thread, core, instrs, kind, addr) != []
    ensures SplitStr(ZsimLine(thread, core, instrs, kind, addr)) == [w0, w1, w2, [kind], w4]
    ensures TypePosition([w0, w1, w2, [kind], w4]) == 3
    ensures StoI(w0) == Some(thread) && StoI(w1) == Some(core) && StoI(w2) == Some(instrs) && w2 != "-"
    ensures StoUl(w4, 10).Some? && StoUl(w4, 10).value.value == addr
  {
    w0, w1, w2, w4 := IntString(thread), IntString(core), IntString(instrs), IntString(addr);
    ZsimLineSplit(thread, core, instrs, kind, addr);
    ZsimWordsType(thread, core, instrs, kind, addr);
    StoIRoundTrip(thread);
    StoIRoundTrip(core);
    StoIRoundTrip(instrs);
    StoUlRoundTrip(addr);
    IntStringChars(thread);
    IntStringChars(instrs);
  }

  /** `get_zsim_request` on a line of five words whose numbers `stoi` and
      `stoul` accept, with the type token fourth. */
  lemma ZsimRequestOfWords(line: string, w0: string, w1: string, w2: string, t: string, w4: string,
                           prev: Fields, thread: int, core: nat, instrs: int, addr: nat)
    requires line != [] && SplitStr(line) == [w0, w1, w2, t, w4] && TypePosition([w0, w1, w2, t, w4]) == 3
    requires StoI(w0) == Some(thread) && StoI(w1) == Some(core) && StoI(w2) == Some(instrs) && w2 != "-"
    requires StoUl(w4, 10).Some? && StoUl(w4, 10).value.value == addr
    requires Wrap32(core) == core <= 512 && Wrap32(instrs) == instrs
    ensures ZsimRequest(Some(line), prev) == Fetched(true, Fields(instrs, ToInt64(addr), ZsimType(t, prev.reqType), core))
  {
    assert ZsimFields([w0, w1, w2, t, w4], 3, prev)
        == ZsimValues(Some(thread), Some(core), Some(instrs), StoUl(w4, 10), t, prev);
  }

  /** The lines `MemoryTraces::access` writes read back under
      `get_zsim_request`: the core becomes `cpu_id`, the reported
      instructions the bubble count, the line address the request address
      (as a signed `long`), and `L`/`S` a read/write, while a prefetch line
      `P` keeps the previous request type. */
  lemma {:induction false} ZsimReadsMemoryTrace(l: MemCtrls.TraceLine, prev: Fields)
    requires INT_MIN <= l.thread <= INT_MAX && l.core <= 512 && 0 <= l.instrs <= INT_MAX
    requires l.kind == 'L' || l.kind == 'S' || l.kind == 'P'
    ensures ZsimRequest(Some(ZsimLine(l.thread, l.core, l.instrs, l.kind, l.lineAddr)), prev)
            == Fetched(true, Fields(l.instrs, ToInt64(l.lineAddr),
                                    if l.kind == 'L' then Read else if l.kind == 'S' then Write else prev.reqType,
                                    l.core))
  {
    var w0, w1, w2, w4 := ZsimLineWords(l.thread, l.core, l.instrs, l.kind, l.lineAddr);
    WrapSmall(l.core);
    WrapSmall(l.instrs);
    ZsimRequestOfWords(ZsimLine(l.thread, l.core, l.instrs, l.kind, l.lineAddr), w0, w1, w2, [l.kind], w4,
                       prev, l.thread, l.core, l.instrs, l.lineAddr);
  }

  // ---------------------------------------------------------------------
  // get_unfiltered_request: `bubbles address [R|W]`

  /** The request type read at `pos`: a missing type or `R` is a read, `W`
      a write, anything else fails `get_unfiltered_request`'s assertion. */
  function UnfilteredType(s: string, pos: Option<nat>): Option<ReqType>
    requires pos.Some? ==> pos.value < |s|
  {
    if pos.None? || s[pos.value] == 'R' then Some(Read)
    else if s[pos.value] == 'W' then Some(Write)
    else None
  }

  /** `Trace::get_unfiltered_request` on one line. The bubble count is read
      in decimal, the address after the blanks that follow it with base
      prefix detection, and the type after the blanks that follow the
      address. A conversion that throws, a `substr` past the end and the
      failed type assertion abort. The stages below take each conversion's
      outcome in turn. */
  function UnfilteredRequest(line: Option<string>, prev: Fields): (r: Result<Fetched>)
    ensures line.None? ==> r == Ok(Fetched(false, prev))
    ensures r.Ok? && r.value.more ==>
              r.value.fields.reqType != Instruction && r.value.fields.tag == prev.tag
  {
    if line.None? then Ok(Fetched(false, prev))
    else UnfilteredBubbles(line.value, StoUl(line.value, 10), prev)
  }

  function UnfilteredBubbles(s: string, bubbles: Option<Conversion>, prev: Fields): (r: Result<Fetched>)
    ensures r.Ok? ==> r.value.more && r.value.fields.reqType != Instruction && r.value.fields.tag == prev.tag
  {
    if bubbles.None? then Fail("stoul: no bubble count")
    else UnfilteredAddress(s, bubbles.value.value, FindFirstNotOf(s, ' ', bubbles.value.end + 1), prev)
  }

  function UnfilteredAddress(s: string, bubbles: int, pos: Option<nat>, prev: Fields): (r: Result<Fetched>)
    requires pos.Some? ==> pos.value < |s|
    ensures r.Ok? ==> r.value.more && r.value.fields.reqType != Instruction && r.value.fields.tag == prev.tag
  {
    if pos.None? then Fail("substr: position out of range")
    else UnfilteredKind(s, bubbles, pos.value, StoUl(s[pos.value..], 0), prev)
  }

  function UnfilteredKind(s: string, bubbles: int, pos: nat, addr: Option<Conversion>, prev: Fields): (r: Result<Fetched>)
    ensures r.Ok? ==> r.value.more && r.value.fields.reqType != Instruction && r.value.fields.tag == prev.tag
  {
    if addr.None? then Fail("stoul: no address")
    else
      var typePos := FindFirstNotOf(s, ' ', pos + addr.value.end);
      UnfilteredFields(bubbles, addr.value.value, UnfilteredType(s, typePos), prev)
  }

  function UnfilteredFields(bubbles: int, addr: int, t: Option<ReqType>, prev: Fields): (r: Result<Fetched>)
    ensures r.Ok? ==> t.Some? && r.value.more && r.value.fields.reqType == t.value && r.value.fields.tag == prev.tag
  {
    if t.None? then Fail("assert: unknown request type")
    else Ok(Fetched(true, Fields(ToInt64(bubbles), ToInt64(addr), t.value, prev.tag)))
  }

  /** The optional type letter of an unfiltered line, after one blank. */
  function TypeTail(kind: Option<char>): string {
    if kind.None? then [] else [' ', kind.value]
  }

  /** The request type an unfiltered line with an `R`, a `W` or no type
      letter stands for. */
  function KindType(kind: Option<char>): (r: ReqType)
    ensures r == Write <==> kind == Some('W')
    ensures kind == None || kind == Some('R') ==> r == Read
    ensures r != Instruction
  {
    if kind == Some('W') then Write else Read
  }

  /** The last stage: the type found after the address. */
  lemma UnfilteredKindOf(line: string, prev: Fields, bubbles: int, pos: nat, na: nat, addr: nat,
                         typePos: Option<nat>)
    requires FindFirstNotOf(line, ' ', pos + na) == typePos
    ensures UnfilteredKind(line, bubbles, pos, Some(Conversion(addr, na)), prev)
            == UnfilteredFields(bubbles, addr, UnfilteredType(line, typePos), prev)
  {
  }

  /** `get_unfiltered_request` on a line whose two conversions and the
      search between them succeed, with the positions they report: the
      line is read with those values when the type found after the address
      is known, and fails the type assertion otherwise. */
  lemma UnfilteredOfParts(line: string, prev: Fields, nb: nat, bubbles: nat, pos: nat, rest: string,
                          na: nat, addr: nat, typePos: Option<nat>)
    requires StoUl(line, 10) == Some(Conversion(bubbles, nb))
    requires FindFirstNotOf(line, ' ', nb + 1) == Some(pos)
    requires line[pos..] == rest && StoUl(rest, 0) == Some(Conversion(addr, na))
    requires FindFirstNotOf(line, ' ', pos + na) == typePos
    ensures UnfilteredType(line, typePos).Some? ==>
              UnfilteredRequest(Some(line), prev)
              == Ok(Fetched(true, Fields(ToInt64(bubbles), ToInt64(addr), UnfilteredType(line, typePos).value, prev.tag)))
    ensures UnfilteredType(line, typePos).None? ==> UnfilteredRequest(Some(line), prev).Fail?
  {
    calc {
      UnfilteredRequest(Some(line), prev);
      UnfilteredBubbles(line, Some(Conversion(bubbles, nb)), prev);
      UnfilteredAddress(line, bubbles, Some(pos), prev);
      UnfilteredKind(line, bubbles, pos, Some(Conversion(addr, na)), prev);
      { UnfilteredKindOf(line, prev, bubbles, pos, na, addr, typePos); }
      UnfilteredFields(bubbles, addr, UnfilteredType(line, typePos), prev);
    }
  }

  /** Where `get_unfiltered_request` looks in an unfiltered line made of
      the bubble count `b`, one blank, the address `a` and the optional
      type `tail`. */
  lemma UnfilteredPositions(b: string, a: string, kind: Option<char>) returns (typePos: Option<nat>)
    requires a != [] && a[0] != ' '
    requires kind == None || kind == Some('R') || kind == Some('W')
    ensures var line := b + (" " + a + TypeTail(kind));
            && FindFirstNotOf(line, ' ', |b| + 1) == Some(|b| + 1)
            && line[|b| + 1..] == a + TypeTail(kind)
            && FindFirstNotOf(line, ' ', |b| + 1 + |a|) == typePos
            && UnfilteredType(line, typePos) == Some(KindType(kind))
  {
    var tail := TypeTail(kind);
    var line := b + (" " + a + tail);
    var pos := |b| + 1;
    assert line[pos] == a[0];
    assert line[pos..] == a + tail;
    var from := pos + |a|;
    if kind.None? {
      assert from == |line|;
      typePos := None;
    } else {
      assert line[from] == ' ' && line[from + 1] == kind.value;
      assert FindFirstNotOf(line, ' ', from + 1) == Some(from + 1);
      typePos := Some(from + 1);
    }
  }

  // ---------------------------------------------------------------------
  // get_pisa_request: `thread processor cycle type hexaddress size`

  /** `MAX_NUMBER_CORES`: the entries of `Trace::instructions`. */
  const MAX_NUMBER_CORES: nat := 256

  /** `Trace::instructions` entries hold `int` values. */
  predicate IntEntries(seen: seq<int>) {
    forall i :: 0 <= i < |seen| ==> INT_MIN <= seen[i] <= INT_MAX
  }

  /** `Trace::get_pisa_request` on one line, with `seen` the contents of
      `instructions` (per processor, the cycle of its previous line): the
      result and the new contents. The bubble count is the line's cycle
      minus the processor's previous one, in 32-bit arithmetic; the record
      is then replaced by the line's cycle. A line with too few tokens or a
      processor outside the vector indexes out of bounds, and a conversion
      that throws aborts. The stages below take each conversion's outcome
      in turn. */
  function PisaRequest(line: Option<string>, prev: Fields, seen: seq<int>): (r: (Result<Fetched>, seq<int>))
    requires |seen| == MAX_NUMBER_CORES
    ensures |r.1| == MAX_NUMBER_CORES
    ensures IntEntries(seen) ==> IntEntries(r.1)
    ensures r.0.Ok? && !r.0.value.more ==> r.0.value.fields == prev && r.1 == seen
  {
    if line.None? || line.value == [] then (Ok(Fetched(false, prev)), seen)
    else PisaSplit(SplitStr(line.value), seen)
  }

  function PisaSplit(split: seq<string>, seen: seq<int>): (r: (Result<Fetched>, seq<int>))
    requires |seen| == MAX_NUMBER_CORES
    ensures |r.1| == MAX_NUMBER_CORES
    ensures IntEntries(seen) ==> IntEntries(r.1)
    ensures r.0.Ok? ==> r.0.value.more
  {
    if |split| < 3 then (Fail("index out of range"), seen)
    else PisaIds(split, StoI(split[0]), StoI(split[1]), StoI(split[2]), seen)
  }

  function PisaIds(split: seq<string>, thread: Option<int>, proc: Option<int>, cycle: Option<int>,
                   seen: seq<int>): (r: (Result<Fetched>, seq<int>))
    requires |seen| == MAX_NUMBER_CORES
    ensures |r.1| == MAX_NUMBER_CORES
    ensures IntEntries(seen) ==> IntEntries(r.1)
    ensures r.0.Ok? ==> r.0.value.more
  {
    if thread.None? || proc.None? || cycle.None? then (Fail("stoi"), seen)
    else if Wrap32(proc.value) >= MAX_NUMBER_CORES then (Fail("index out of range"), seen)
    else PisaRecord(split, Wrap32(proc.value), Wrap32(cycle.value), seen)
  }

  /** The record update for processor `pid` at the (unsigned) cycle `cyc`,
      made before the remaining tokens are read. */
  function PisaRecord(split: seq<string>, pid: nat, cyc: int, seen: seq<int>): (r: (Result<Fetched>, seq<int>))
    requires |seen| == MAX_NUMBER_CORES && pid < MAX_NUMBER_CORES
    ensures r.1 == seen[pid := ToInt32(cyc)]
    ensures r.0.Ok? ==> r.0.value.more
  {
    (PisaFields(split, ToInt32(cyc - seen[pid])), seen[pid := ToInt32(cyc)])
  }

  function PisaFields(split: seq<string>, nInstructions: int): (r: Result<Fetched>)
    ensures r.Ok? ==> r.value.more
  {
    if |split| < 6 then Fail("index out of range")
    else PisaValues(nInstructions, StoUl(split[4], 16), StoI(split[5]), split[3])
  }

  function PisaValues(nInstructions: int, addr: Option<Conversion>, size: Option<int>, t: string): (r: Result<Fetched>)
    ensures r.Ok? ==> r.value.more
  {
    if addr.None? || size.None? then Fail("stoul/stoi")
    else Ok(Fetched(true, Fields(Wrap32(nInstructions), ToInt64(addr.value.value),
                                 if t == "L" then Read else Write, Wrap32(size.value))))
  }

  /** The words of a well-formed PISA line for processor `proc` at cycle
      `cycle`. */
  predicate PisaWords(split: seq<string>, proc: int, cycle: int) {
    && |split| >= 6 && StoI(split[0]).Some? && StoI(split[1]) == Some(proc) && StoI(split[2]) == Some(cycle)
    && StoUl(split[4], 16).Some? && StoI(split[5]).Some?
  }

  /** The words of a well-formed line for a processor below 256 are read:
      the bubble count is the cycle minus the processor's recorded cycle
      (exactly, when the two are ordered and non-negative), only that
      processor's record changes, to the line's cycle, and `L` is a read
      and anything else a write. */
  lemma PisaReadsWords(split: seq<string>, seen: seq<int>, proc: int, cycle: int)
    requires |seen| == MAX_NUMBER_CORES && IntEntries(seen)
    requires PisaWords(split, proc, cycle) && 0 <= proc < MAX_NUMBER_CORES
    ensures var r := PisaSplit(split, seen);
            && r.0.Ok?
            && r.1 == seen[proc := cycle]
            && r.0.value.fields.reqType == (if split[3] == "L" then Read else Write)
            && (0 <= seen[proc] <= cycle ==> r.0.value.fields.bubbleCnt == cycle - seen[proc])
  {
    assert PisaSplit(split, seen) == PisaIds(split, StoI(split[0]), Some(proc), Some(cycle), seen);
    var n := PisaIdsOf(split, seen, StoI(split[0]).value, proc, cycle);
    PisaFieldsOf(split, n);
  }

  /** The record update of a line of thread `thread` for processor `proc`
      at the `int` cycle `cycle`, and the bubble count `n` it computes. */
  lemma PisaIdsOf(split: seq<string>, seen: seq<int>, thread: int, proc: nat, cycle: int) returns (n: int)
    requires |seen| == MAX_NUMBER_CORES && IntEntries(seen)
    requires proc < MAX_NUMBER_CORES && INT_MIN <= cycle <= INT_MAX
    ensures PisaIds(split, Some(thread), Some(proc), Some(cycle), seen) == (PisaFields(split, n), seen[proc := cycle])
    ensures 0 <= seen[proc] <= cycle ==> Wrap32(n) == cycle - seen[proc]
  {
    WrapSmall(proc);
    PisaArithmetic(cycle, seen[proc]);
    n := ToInt32(Wrap32(cycle) - seen[proc]);
  }

  /** The tokens after the cycle of a well-formed line are read. */
  lemma PisaFieldsOf(split: seq<string>, n: int)
    requires |split| >= 6 && StoUl(split[4], 16).Some? && StoI(split[5]).Some?
    ensures PisaFields(split, n).Ok?
    ensures PisaFields(split, n).value.fields.bubbleCnt == Wrap32(n)
    ensures PisaFields(split, n).value.fields.reqType == (if split[3] == "L" then Read else Write)
  {
    assert PisaFields(split, n) == PisaValues(n, StoUl(split[4], 16), StoI(split[5]), split[3]);
  }

  /** A well-formed line for a processor below 256 is read, as its words
      are. */
  lemma PisaReadsLine(line: string, prev: Fields, seen: seq<int>, proc: int, cycle: int)
    requires |seen| == MAX_NUMBER_CORES && IntEntries(seen)
    requires line != [] && PisaWords(SplitStr(line), proc, cycle) && 0 <= proc < MAX_NUMBER_CORES
    ensures var r := PisaRequest(Some(line), prev, seen);
            && r.0.Ok? && r.0.value.more
            && r.1 == seen[proc := cycle]
            && r.0.value.fields.reqType == (if SplitStr(line)[3] == "L" then Read else Write)
            && (0 <= seen[proc] <= cycle ==> r.0.value.fields.bubbleCnt == cycle - seen[proc])
  {
    PisaReadsWords(SplitStr(line), seen, proc, cycle);
  }

  /** The 32-bit arithmetic of the bubble count: an `int` cycle survives the
      round trip through `unsigned`, and the difference of ordered
      non-negative cycles does not wrap. */
  lemma PisaArithmetic(cycle: int, last: int)
    requires INT_MIN <= cycle <= INT_MAX && INT_MIN <= last <= INT_MAX
    ensures ToInt32(Wrap32(cycle)) == cycle
    ensures 0 <= last <= cycle ==> Wrap32(ToInt32(Wrap32(cycle) - last)) == cycle - last
  {
    var cyc := Wrap32(cycle);
    if cycle < 0 {
      assert cyc == cycle + TWO_32;
    } else {
      WrapSmall(cycle);
    }
    if 0 <= last <= cycle {
      WrapSmall(cycle - last);
    }
  }

  /** Two successive well-formed lines of one processor, with ordered
      non-negative cycles: the second one's bubble count is the distance
      between the two cycles, whatever lines of other processors came in
      between them. */
  lemma PisaConsecutive(line1: string, line2: string, prev: Fields, seen: seq<int>,
                        proc: int, cycle1: int, cycle2: int)
    requires |seen| == MAX_NUMBER_CORES && IntEntries(seen)
    requires line1 != [] && PisaWords(SplitStr(line1), proc, cycle1) && 0 <= proc < MAX_NUMBER_CORES
    requires line2 != [] && PisaWords(SplitStr(line2), proc, cycle2)
    requires 0 <= cycle1 <= cycle2
    ensures var r1 := PisaRequest(Some(line1), prev, seen);
            && r1.0.Ok?
            && var r2 := PisaRequest(Some(line2), r1.0.value.fields, r1.1);
               r2.0.Ok? && r2.0.value.fields.bubbleCnt == cycle2 - cycle1
  {
    PisaReadsLine(line1, prev, seen, proc, cycle1);
    var r1 := PisaRequest(Some(line1), prev, seen);
    PisaReadsLine(line2, r1.0.value.fields, r1.1, proc, cycle2);
  }

  /** The state `get_pisa_request` keeps: the last cycle seen per processor. */
  class PisaTrace {
    const instructions: array<int>

    ghost predicate Valid()
      reads this, instructions
    {
      instructions.Length == MAX_NUMBER_CORES && IntEntries(instructions[..])
    }

    /** `Trace::Trace`/`init_trace`: 256 records, all 0. */
    constructor ()
      ensures Valid() && fresh(instructions)
      ensures instructions[..] == seq(MAX_NUMBER_CORES, _ => 0)
    {
      var a := new int[MAX_NUMBER_CORES];
      var i := 0;
      while i < MAX_NUMBER_CORES
        invariant 0 <= i <= MAX_NUMBER_CORES
        invariant forall k :: 0 <= k < i ==> a[k] == 0
      {
        a[i] := 0;
        i := i + 1;
      }
      instructions := a;
    }

    /** `Trace::get_pisa_request`. */
    method GetPisaRequest(line: Option<string>, prev: Fields) returns (r: Result<Fetched>)
      requires Valid()
      modifies instructions
      ensures Valid()
      ensures (r, instructions[..]) == PisaRequest(line, prev, old(instructions[..]))
    {
      ghost var seen := instructions[..];
      if line.None? || line.value == [] {
        return Ok(Fetched(false, prev));
      }
      var split := SplitStr(line.value);
      if |split| < 3 {
        return Fail("index out of range");
      }
      var thread := StoI(split[0]);
      var proc := StoI(split[1]);
      var cycle := StoI(split[2]);
      if thread.None? || proc.None? || cycle.None? {
        return Fail("stoi");
      }
      assert PisaRequest(line, prev, seen) == PisaIds(split, thread, proc, cycle, seen);
      var pid := Wrap32(proc.value);
      var cyc := Wrap32(cycle.value);
      if pid >= MAX_NUMBER_CORES {
        return Fail("index out of range");
      }
      var nInstructions := ToInt32(cyc - instructions[pid]);
      instructions[pid] := ToInt32(cyc);
      assert instructions[..] == seen[pid := ToInt32(cyc)];
      r := PisaFields(split, nInstructions);
    }
  }
}
