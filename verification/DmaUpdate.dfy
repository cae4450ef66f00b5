/** Completing the elements of one request batch: request IDs, buffer addresses, errors. */
module DmaUpdate {
  import opened Wrappers
  import opened ByteCodec
  import opened MetadataImage
  import opened DmaElement
  import opened DmaPipeline

  /** What an update leaves behind: its status, the next request ID, the last ID to wait for and the memory. */
  datatype Result = Result(status: Status, reqID: U16, lastReqID: U16, elems: seq<Words>)

  /** The loop from element `k` on; counters and request IDs are 16 bits wide. */
  function UpdateFrom(items: seq<Item>, bufs: seq<Buffer>, k: nat, reqID: U16, last: U16, lastReqID: U16,
                      elems: seq<Words>): (r: Result)
    requires |items| <= |elems|
    ensures |r.elems| == |elems|
    decreases |items| - k
  {
    if k >= |items| then
      Result(Success, (reqID + k % TWO16) % TWO16, if last != 0 then last else lastReqID, elems)
    else
      var it, slot := items[k], k % TWO16;
      var start := if reqID + slot == 0 then 1 else reqID;
      var id := (start + slot) % TWO16;
      if it.bufIndex == IDX_NO_DMA then
        UpdateFrom(items, bufs, k + 1, start, last, lastReqID, elems[slot := WithReqID(it.words, id)])
      else if it.bufIndex < 0 || it.bufIndex >= |bufs| then
        Result(Inval, start, lastReqID, elems)
      else if !Accepts(it, bufs[it.bufIndex]) then
        Result(Inval, start, lastReqID, elems[slot := WithReqID(it.words, id)])
      else
        UpdateFrom(items, bufs, k + 1, start, if it.fields.cmd.response then id else last, lastReqID,
                   elems[slot := Updated(it, id, bufs[it.bufIndex])])
  }

  function UpdateAll(items: seq<Item>, reqID: U16, bufs: seq<Buffer>, elems: seq<Words>, lastReqID: U16): (r: Result)
    ensures |r.elems| == |elems|
  {
    if |items| > |elems| then Result(Inval, reqID, lastReqID, elems)
    else UpdateFrom(items, bufs, 0, reqID, 0, lastReqID, elems)
  }

  // ------------------------------------------------------------------------------------------------
  // Request IDs
  // ------------------------------------------------------------------------------------------------

  /** The first ID that is handed out: 0 is skipped. */
  function FirstID(reqID: U16): U16 { if reqID == 0 then 1 else reqID }

  function Nth(first: U16, k: nat): U16 { (first + k) % TWO16 }

  function IDNo(reqID: U16, k: nat): U16 { Nth(FirstID(reqID), k) }

  /** No element gets ID 0 exactly when the IDs stay below the 16-bit limit. */
  lemma NoZeroIDIff(reqID: U16, n: nat)
    ensures (forall k :: 0 <= k < n ==> IDNo(reqID, k) != 0) <==> n == 0 || FirstID(reqID) + n <= TWO16
  {
    if n > 0 && FirstID(reqID) + n > TWO16 {
      assert IDNo(reqID, TWO16 - FirstID(reqID)) == 0;
    }
  }

  /** Within the limit, IDs are consecutive, and two successive batches share none. */
  lemma SuccessiveIDs(reqID: U16, n: nat, m: nat, j: nat, k: nat)
    requires n > 0 && FirstID(reqID) + n + m <= TWO16 && j < n && k < m
    ensures IDNo(reqID, j) == FirstID(reqID) + j
    ensures var next := (FirstID(reqID) + n) % TWO16; IDNo(next, k) == FirstID(reqID) + n + k != IDNo(reqID, j)
  {
  }

  // ------------------------------------------------------------------------------------------------
  // Successful updates
  // ------------------------------------------------------------------------------------------------

  /** The element can be completed with the given buffers. */
  predicate Ready(it: Item, bufs: seq<Buffer>) {
    it.bufIndex == IDX_NO_DMA || (0 <= it.bufIndex < |bufs| && Accepts(it, bufs[it.bufIndex]))
  }

  /** The completed words of an element. */
  function Completed(it: Item, bufs: seq<Buffer>, id: U16): Words
    requires Ready(it, bufs)
  {
    if it.bufIndex == IDX_NO_DMA then WithReqID(it.words, id) else Updated(it, id, bufs[it.bufIndex])
  }

  /** The ID of the last element from `k` on that asks for a response, or `last`. */
  function LastResponse(items: seq<Item>, first: U16, k: nat, last: U16): U16
    decreases |items| - k
  {
    if k >= |items| then last
    else
      var asks := items[k].bufIndex != IDX_NO_DMA && items[k].fields.cmd.response;
      LastResponse(items, first, k + 1, if asks then Nth(first, k) else last)
  }

  /** One iteration of the loop. */
  lemma UpdateStep(items: seq<Item>, bufs: seq<Buffer>, k: nat, reqID: U16, last: U16, lastReqID: U16,
                   elems: seq<Words>)
    requires k < |items| <= |elems| && |items| <= TWO16 && (k > 0 ==> reqID != 0)
    ensures var it, first, r := items[k], FirstID(reqID), UpdateFrom(items, bufs, k, reqID, last, lastReqID, elems);
            var asks := it.bufIndex != IDX_NO_DMA && it.fields.cmd.response;
            if Ready(it, bufs)
            then r == UpdateFrom(items, bufs, k + 1, first, if asks then Nth(first, k) else last, lastReqID,
                                 elems[k := Completed(it, bufs, Nth(first, k))])
            else r.status == Inval && r.lastReqID == lastReqID
  {
    hide WithReqID, Updated, Accepts;
    assert k % TWO16 == k && FirstID(reqID) == if reqID + k == 0 then 1 else reqID;
  }

  lemma UpdateDone(items: seq<Item>, bufs: seq<Buffer>, k: nat, reqID: U16, last: U16, lastReqID: U16,
                   elems: seq<Words>)
    requires k == |items| <= |elems| && |items| <= TWO16
    ensures UpdateFrom(items, bufs, k, reqID, last, lastReqID, elems)
            == Result(Success, Nth(reqID, k), if last != 0 then last else lastReqID, elems)
  {
    assert (reqID + k % TWO16) % TWO16 == (reqID + k) % TWO16;
  }

  /** The loop succeeds exactly when every remaining element is ready, and then completes each with its own ID. */
  lemma {:induction false} UpdateFromIs(items: seq<Item>, bufs: seq<Buffer>, k: nat, reqID: U16, last: U16,
                                        lastReqID: U16, elems: seq<Words>)
    requires |items| <= |elems| && |items| <= TWO16 && k <= |items| && (k > 0 ==> reqID != 0)
    ensures var r, first := UpdateFrom(items, bufs, k, reqID, last, lastReqID, elems), FirstID(reqID);
            && (r.status == Success <==> forall j :: k <= j < |items| ==> Ready(items[j], bufs))
            && (r.status != Success ==> r.status == Inval && r.lastReqID == lastReqID)
            && (r.status == Success ==>
                  && (forall j :: k <= j < |items| ==> r.elems[j] == Completed(items[j], bufs, Nth(first, j)))
                  && (forall j :: 0 <= j < |elems| && !(k <= j < |items|) ==> r.elems[j] == elems[j])
                  && (|items| > 0 ==> r.reqID == Nth(first, |items|))
                  && var response := LastResponse(items, first, k, last);
                     r.lastReqID == if response != 0 then response else lastReqID)
    decreases |items| - k
  {
    hide Ready, Completed, Nth, UpdateFrom;
    if k == |items| {
      UpdateDone(items, bufs, k, reqID, last, lastReqID, elems);
    } else {
      var it, first := items[k], FirstID(reqID);
      var last' := if it.bufIndex != IDX_NO_DMA && it.fields.cmd.response then Nth(first, k) else last;
      UpdateStep(items, bufs, k, reqID, last, lastReqID, elems);
      if Ready(it, bufs) {
        UpdateFromIs(items, bufs, k + 1, first, last', lastReqID, elems[k := Completed(it, bufs, Nth(first, k))]);
      }
    }
  }

  /**
   An update succeeds exactly when there is room and every element's buffer is there and large enough; element k then
   holds its own words with the k-th request ID and its buffer's address, and the IDs continue behind the batch.
   */
  lemma UpdateIs(items: seq<Item>, reqID: U16, bufs: seq<Buffer>, elems: seq<Words>, lastReqID: U16)
    requires 0 < |items| <= TWO16
    ensures var r := UpdateAll(items, reqID, bufs, elems, lastReqID);
            && (r.status == Success <==> |items| <= |elems| && forall j :: 0 <= j < |items| ==> Ready(items[j], bufs))
            && (r.status == Success ==>
                  && (forall j :: 0 <= j < |items| ==> r.elems[j] == Completed(items[j], bufs, IDNo(reqID, j)))
                  && (forall j :: |items| <= j < |elems| ==> r.elems[j] == elems[j])
                  && r.reqID == IDNo(reqID, |items|)
                  && var response := LastResponse(items, FirstID(reqID), 0, 0);
                     r.lastReqID == if response != 0 then response else lastReqID)
  {
    if |items| <= |elems| {
      UpdateFromIs(items, bufs, 0, reqID, 0, lastReqID, elems);
    }
  }

  /** The first element from `i` on that is not ready is `k`. */
  predicate FirstUnready(items: seq<Item>, bufs: seq<Buffer>, i: nat, k: nat) {
    i <= k < |items| && !Ready(items[k], bufs) && forall j :: i <= j < k ==> Ready(items[j], bufs)
  }

  /** What the loop leaves behind that fails at element `k`. */
  predicate FailsAt(items: seq<Item>, bufs: seq<Buffer>, first: U16, i: nat, k: nat, elems: seq<Words>,
                    lastReqID: U16, r: Result)
    requires k < |items| <= |elems|
  {
    && r.status == Inval && r.reqID == first && r.lastReqID == lastReqID && |r.elems| == |elems|
    && (forall j :: i <= j < k ==> Ready(items[j], bufs) && r.elems[j] == Completed(items[j], bufs, Nth(first, j)))
    && (forall j :: 0 <= j < |elems| && !(i <= j <= k) ==> r.elems[j] == elems[j])
    && r.elems[k] == if 0 <= items[k].bufIndex < |bufs| then WithReqID(items[k].words, Nth(first, k)) else elems[k]
  }

  lemma FailsHere(items: seq<Item>, bufs: seq<Buffer>, k: nat, reqID: U16, last: U16, lastReqID: U16, elems: seq<Words>)
    requires |items| <= |elems| && |items| <= TWO16 && FirstUnready(items, bufs, k, k) && (k > 0 ==> reqID != 0)
    ensures FailsAt(items, bufs, FirstID(reqID), k, k, elems, lastReqID,
                    UpdateFrom(items, bufs, k, reqID, last, lastReqID, elems))
  {
    hide WithReqID, Updated, Accepts;
    assert k % TWO16 == k && FirstID(reqID) == if reqID + k == 0 then 1 else reqID;
  }

  lemma {:induction false} UpdateFromFails(items: seq<Item>, bufs: seq<Buffer>, i: nat, k: nat, reqID: U16, last: U16,
                                           lastReqID: U16, elems: seq<Words>)
    requires |items| <= |elems| && |items| <= TWO16 && FirstUnready(items, bufs, i, k) && (i > 0 ==> reqID != 0)
    ensures FailsAt(items, bufs, FirstID(reqID), i, k, elems, lastReqID,
                    UpdateFrom(items, bufs, i, reqID, last, lastReqID, elems))
    decreases k - i
  {
    if i == k {
      FailsHere(items, bufs, k, reqID, last, lastReqID, elems);
    } else {
      hide Ready, Completed, Nth, UpdateFrom, WithReqID;
      var it, first := items[i], FirstID(reqID);
      var asks := it.bufIndex != IDX_NO_DMA && it.fields.cmd.response;
      UpdateStep(items, bufs, i, reqID, last, lastReqID, elems);
      UpdateFromFails(items, bufs, i + 1, k, first, if asks then Nth(first, i) else last, lastReqID,
                      elems[i := Completed(it, bufs, Nth(first, i))]);
    }
  }

  /**
   A failed update: without room nothing is changed. Otherwise the elements in front of the first that is not ready are
   complete, that one has its ID if its buffer is there but is no use, and neither request ID moves on.
   */
  lemma UpdateFailsAt(items: seq<Item>, reqID: U16, bufs: seq<Buffer>, elems: seq<Words>, lastReqID: U16, k: nat)
    requires 0 < |items| <= TWO16
    ensures |items| > |elems| ==>
              UpdateAll(items, reqID, bufs, elems, lastReqID) == Result(Inval, reqID, lastReqID, elems)
    ensures |items| <= |elems| && FirstUnready(items, bufs, 0, k) ==>
              FailsAt(items, bufs, FirstID(reqID), 0, k, elems, lastReqID,
                      UpdateAll(items, reqID, bufs, elems, lastReqID))
  {
    hide Ready, FailsAt, UpdateFrom, FirstID;
    if |items| <= |elems| && FirstUnready(items, bufs, 0, k) {
      UpdateFromFails(items, bufs, 0, k, reqID, 0, lastReqID, elems);
    }
  }

  /** The elements of an activated network. */
  function Network(rs: seq<DmaRequest>, ddrBase: U64, mcIDBase: U64): (items: seq<Item>)
    ensures |items| == |rs|
  {
    seq(|rs|, i requires 0 <= i < |rs| => RelocatedItem(Stencil(rs)[i], ddrBase, mcIDBase))
  }

  /** The buffer of a request is there and holds its data. */
  predicate Supplied(r: DmaRequest, bufs: seq<Buffer>) {
    r.num < |bufs| && (r.size == 0 || (bufs[r.num].addr != 0 && r.size <= bufs[r.num].size))
  }

  lemma ReadyIffSupplied(rs: seq<DmaRequest>, i: nat, bufs: seq<Buffer>, ddrBase: U64, mcIDBase: U64)
    requires i < |rs| && WithinLimits(rs[i])
    ensures Network(rs, ddrBase, mcIDBase)[i].bufIndex == rs[i].num
    ensures Ready(Network(rs, ddrBase, mcIDBase)[i], bufs) <==> Supplied(rs[i], bufs)
  {
    hide WithinLimits, Network, RelocatedItem, ParsedItem, Direction;
    NetworkItem(rs, i, ddrBase, mcIDBase);
    ItemFacts(rs[i], i == |rs| - 1, ddrBase, mcIDBase);
    DirectionIs(rs[i]);
  }

  lemma NetworkItem(rs: seq<DmaRequest>, i: nat, ddrBase: U64, mcIDBase: U64)
    requires i < |rs|
    ensures Network(rs, ddrBase, mcIDBase)[i] == RelocatedItem(ParsedItem(rs[i], i == |rs| - 1), ddrBase, mcIDBase)
  {
    hide RelocatedItem, ParsedItem;
    assert Stencil(rs)[i] == ParsedItem(rs[i], i == |rs| - 1);
  }

  lemma DirectionIs(r: DmaRequest)
    ensures Direction(r) == NO_TRANSFER <==> r.size == 0
  {
  }

  /** What the update looks at in a relocated element. */
  lemma ItemFacts(r: DmaRequest, isLast: bool, ddrBase: U64, mcIDBase: U64)
    requires WithinLimits(r)
    ensures var it := RelocatedItem(ParsedItem(r, isLast), ddrBase, mcIDBase);
            it.bufIndex == r.num && it.fields.cmd.direction == Direction(r) && it.words[6] == r.size
  {
    hide WithinLimits, RelocatedItem, ParsedItem, Element.IsValid, SemNo, DeviceAddress, DoorbellAddress, Decode;
    RelocatedMeaning(r, isLast, ddrBase, mcIDBase);
    LengthWord(RelocatedItem(ParsedItem(r, isLast), ddrBase, mcIDBase).words);
  }

  lemma LengthWord(ws: Words)
    ensures Decode(ws).len == ws[6]
  {
    hide DecodeCmd, SemOfWord, Wide, WriteOf, LenOf, ReqIDOf, SeqIDOf, CmdOf;
  }

  /**
   A batch on an activated network: it succeeds exactly when every request's buffer is supplied, and element i then
   means request i, with the i-th request ID and the start address of buffer `num` on the host side.
   */
  lemma BatchMeaning(rs: seq<DmaRequest>, ddrBase: U64, mcIDBase: U64, reqID: U16, bufs: seq<Buffer>,
                     elems: seq<Words>, lastReqID: U16)
    requires 0 < |rs| <= |elems| && |rs| <= TWO16 && forall i :: 0 <= i < |rs| ==> WithinLimits(rs[i])
    ensures var r := UpdateAll(Network(rs, ddrBase, mcIDBase), reqID, bufs, elems, lastReqID);
            && (r.status == Success <==> forall i :: 0 <= i < |rs| ==> Supplied(rs[i], bufs))
            && (r.status == Success ==> forall i :: 0 <= i < |rs| ==>
                  Decode(r.elems[i])
                  == Meaning(rs[i], i == |rs| - 1, IDNo(reqID, i), bufs[rs[i].num].addr, ddrBase, mcIDBase))
  {
    hide UpdateAll, Ready, Supplied, WithinLimits, Network, Meaning, Decode, IDNo;
    var items := Network(rs, ddrBase, mcIDBase);
    UpdateIs(items, reqID, bufs, elems, lastReqID);
    forall i | 0 <= i < |rs| ensures Ready(items[i], bufs) <==> Supplied(rs[i], bufs) {
      ReadyIffSupplied(rs, i, bufs, ddrBase, mcIDBase);
    }
    forall i | 0 <= i < |rs| && Ready(items[i], bufs)
      ensures rs[i].num < |bufs|
      ensures Decode(Completed(items[i], bufs, IDNo(reqID, i)))
              == Meaning(rs[i], i == |rs| - 1, IDNo(reqID, i), bufs[rs[i].num].addr, ddrBase, mcIDBase)
    {
      CompletedMeaning(rs, i, bufs, IDNo(reqID, i), ddrBase, mcIDBase);
    }
  }

  lemma CompletedMeaning(rs: seq<DmaRequest>, i: nat, bufs: seq<Buffer>, id: U16, ddrBase: U64, mcIDBase: U64)
    requires i < |rs| && WithinLimits(rs[i]) && Ready(Network(rs, ddrBase, mcIDBase)[i], bufs)
    ensures rs[i].num < |bufs|
    ensures Decode(Completed(Network(rs, ddrBase, mcIDBase)[i], bufs, id))
            == Meaning(rs[i], i == |rs| - 1, id, bufs[rs[i].num].addr, ddrBase, mcIDBase)
  {
    hide WithinLimits, Meaning, Decode, RelocatedItem, Updated, WithReqID, Accepts, Stencil;
    ReadyIffSupplied(rs, i, bufs, ddrBase, mcIDBase);
    PipelineMeaning(rs, i, ddrBase, mcIDBase, id, bufs[rs[i].num]);
  }
}
