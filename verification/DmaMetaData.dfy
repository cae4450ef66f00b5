/** The request element, the parser and the metadata as they run: fields, word buffers and loops. */
module DmaMetaData {
  import opened Wrappers
  import opened ByteCodec
  import opened MetadataImage
  import opened DmaElement
  import opened DmaPipeline
  import opened DmaUpdate

  // ------------------------------------------------------------------------------------------------
  // The kernel's slice entry
  // ------------------------------------------------------------------------------------------------

  datatype KernelSem = KernelSem(val: bv16, index: bv8, presync: bool, cmd: bv8, inSyncFence: bool, outSyncFence: bool)

  /** What an element contributes to a slice entry. */
  datatype Slice = Slice(devAddr: U64, dbLen: U32, dbData: U32, dbAddr: U64, sem0: KernelSem, sem1: KernelSem,
                         sem2: KernelSem, sem3: KernelSem)

  /** The doorbell's size in bytes, as decoding derives it. */
  function DoorbellBytes(write: U8, len: U8): U32 {
    if write == 0 then 0 else if len == 0 then 4 else if len == 1 then 2 else if len == 2 then 1 else 0
  }

  function KernelSemOf(s: SemCmd): KernelSem { KernelSem(s.value, s.semID, s.sync, s.cmdID, s.ibSync, s.obSync) }

  function SliceOf(e: Element): Slice {
    Slice(if e.cmd.direction == NO_TRANSFER then 0 else if e.cmd.direction == INBOUND then e.dst else e.src,
          if e.dbWrite != 0 then DoorbellBytes(e.dbWrite, e.dbLen) * 8 else 0,
          if e.dbWrite != 0 then e.dbData else 0,
          if e.dbWrite != 0 then e.dbAddr else 0,
          KernelSemOf(e.sem0), KernelSemOf(e.sem1), KernelSemOf(e.sem2), KernelSemOf(e.sem3))
  }

  /** The length in bits of a doorbell of the metadata's size code. */
  function DoorbellBits(size: U8): U32 { if size == 0 then 8 else if size == 1 then 16 else 32 }

  /** The slice entry a request stands for, in the request's own terms. */
  function SliceFor(r: DmaRequest, ddrBase: U64, mcIDBase: U64): Slice {
    var s := Slice(if r.size == 0 then 0 else DeviceAddress(r, ddrBase, mcIDBase), 0, 0, 0, KernelSemOf(SemNo(r, 0)),
                   KernelSemOf(SemNo(r, 1)), KernelSemOf(SemNo(r, 2)), KernelSemOf(SemNo(r, 3)));
    if |r.doorbellOps| != 1 then s
    else
      var o := r.doorbellOps[0];
      s.(dbLen := DoorbellBits(o.size), dbData := o.data, dbAddr := DoorbellAddress(o, mcIDBase))
  }

  /**
   What the kernel is told about request i of an activated network: the device address, the doorbell with its length
   in bits, and the four semaphores.
   */
  lemma SliceMeaning(rs: seq<DmaRequest>, i: nat, ddrBase: U64, mcIDBase: U64)
    requires i < |rs| && WithinLimits(rs[i])
    ensures SliceOf(Network(rs, ddrBase, mcIDBase)[i].fields) == SliceFor(rs[i], ddrBase, mcIDBase)
  {
    hide WithinLimits, Network, RelocatedItem, ParsedItem, Decode, Element.IsValid, Meaning, SliceOf, SliceFor;
    NetworkItem(rs, i, ddrBase, mcIDBase);
    RelocatedMeaning(rs[i], i == |rs| - 1, ddrBase, mcIDBase);
    SliceOfMeaning(rs[i], i == |rs| - 1, ddrBase, mcIDBase);
  }

  lemma SliceOfMeaning(r: DmaRequest, isLast: bool, ddrBase: U64, mcIDBase: U64)
    ensures SliceOf(Meaning(r, isLast, 0, 0, ddrBase, mcIDBase)) == SliceFor(r, ddrBase, mcIDBase)
  {
    hide SemNo, DeviceAddress, DoorbellAddress, KernelSemOf;
  }

  // ------------------------------------------------------------------------------------------------
  // Elements
  // ------------------------------------------------------------------------------------------------

  /** The sixteen words, one by one. */
  lemma EncodedWords(e: Element, ws: seq<U32>)
    requires |ws| == ELEMENT_WORDS
    requires ws[0] == FirstWord(e.reqID, e.seqID, EncodeCmd(e.cmd)) && ws[1] == 0
    requires ws[2] == Low(e.src) && ws[3] == High(e.src) && ws[4] == Low(e.dst) && ws[5] == High(e.dst)
    requires ws[6] == e.len && ws[7] == 0 && ws[8] == Low(e.dbAddr) && ws[9] == High(e.dbAddr)
    requires ws[10] == DoorbellWord(e.dbWrite, e.dbLen) && ws[11] == e.dbData
    requires ws[12] == SemWord(e.sem0) && ws[13] == SemWord(e.sem1) && ws[14] == SemWord(e.sem2)
    requires ws[15] == SemWord(e.sem3)
    ensures ws == Encode(e)
  {
    hide FirstWord, EncodeCmd, Low, High, DoorbellWord, SemWord;
  }

  class QDmaRequestElement {
    const data: array<U32>
    const owns: bool
    const bufIndex: int
    const dmaVTCM: bool
    var fields: Element

    predicate Valid()
      reads this
    {
      data.Length == ELEMENT_WORDS
    }

    function AsItem(): Item
      requires Valid()
      reads this, data
    {
      Item(fields, data[..], bufIndex, dmaVTCM)
    }

    /** An element of its own, encoded from its fields. */
    constructor (e: Element, bufIndex: int, dmaVTCM: bool)
      ensures Valid() && owns && fresh(data) && AsItem() == Built(e, bufIndex, dmaVTCM)
    {
      data := new U32[ELEMENT_WORDS];
      owns, this.bufIndex, this.dmaVTCM, fields := true, bufIndex, dmaVTCM, e;
      new;
      EncodeWords();
    }

    /** A view on words that belong to someone else. */
    constructor FromData(words: array<U32>)
      requires words.Length == ELEMENT_WORDS
      ensures Valid() && !owns && data == words && bufIndex == IDX_NO_DMA && dmaVTCM
      ensures fields == Decode(data[..])
    {
      data, owns, bufIndex, dmaVTCM := words, false, IDX_NO_DMA, true;
      fields := Decode(words[..]);
    }

    /** The relocated copy; the copy of a view stays a view and is not relocated. */
    constructor Copy(req: QDmaRequestElement, ddrBase: U64, mcIDBase: U64)
      requires req.Valid()
      ensures Valid() && owns == req.owns
      ensures owns ==> fresh(data) && AsItem() == RelocatedItem(req.AsItem(), ddrBase, mcIDBase)
      ensures !owns ==> data == req.data && AsItem() == req.AsItem().(fields := Decode(data[..]))
    {
      bufIndex, dmaVTCM, owns := req.bufIndex, req.dmaVTCM, req.owns;
      if req.owns {
        var words := new U32[ELEMENT_WORDS](i requires 0 <= i < ELEMENT_WORDS reads req.data => req.data[i]);
        assert words[..] == req.data[..];
        data := words;
      } else {
        data := req.data;
      }
      fields := Decode(req.data[..]);
      new;
      if owns { UpdateElement(ddrBase, mcIDBase); }
    }

    method EncodeWords()
      requires Valid()
      modifies data
      ensures data[..] == Encode(fields)
    {
      hide FirstWord, EncodeCmd, Low, High, DoorbellWord, SemWord, Encode;
      data[0] := FirstWord(fields.reqID, fields.seqID, EncodeCmd(fields.cmd));
      data[1] := 0;
      data[2], data[3] := Low(fields.src), High(fields.src);
      data[4], data[5] := Low(fields.dst), High(fields.dst);
      data[6], data[7] := fields.len, 0;
      data[8], data[9] := Low(fields.dbAddr), High(fields.dbAddr);
      data[10], data[11] := DoorbellWord(fields.dbWrite, fields.dbLen), fields.dbData;
      data[12], data[13] := SemWord(fields.sem0), SemWord(fields.sem1);
      data[14], data[15] := SemWord(fields.sem2), SemWord(fields.sem3);
      EncodedWords(fields, data[..]);
    }

    /** Adds the bases to the addresses and encodes again. */
    method UpdateElement(ddrBase: U64, mcIDBase: U64)
      requires Valid() && owns
      modifies `fields, data
      ensures fields == Relocate(old(fields), dmaVTCM, ddrBase, mcIDBase) && data[..] == Encode(fields)
    {
      hide Add, Encode;
      var base := if dmaVTCM then mcIDBase else ddrBase;
      if fields.cmd.direction == INBOUND {
        fields := fields.(dst := Add(fields.dst, base));
      } else if fields.cmd.direction == OUTBOUND {
        fields := fields.(src := Add(fields.src, base));
      }
      if mcIDBase != 0 && fields.dbWrite != 0 {
        fields := fields.(dbAddr := Add(fields.dbAddr, mcIDBase));
      }
      EncodeWords();
    }
  }

  // ------------------------------------------------------------------------------------------------
  // Parsing
  // ------------------------------------------------------------------------------------------------

  /** The parser's loop over the requests. */
  method Parse(requests: seq<DmaRequest>) returns (stencil: seq<Item>, elemToBuf: seq<Part>, numBuf: nat)
    ensures stencil == Stencil(requests) && elemToBuf == ElemToBuf(requests) && numBuf == NumBuf(requests)
  {
    hide ParsedItem, NumBuf;
    stencil, elemToBuf := [], [];
    NumBufOfNone();
    var bufMaxIndex := -1;
    for k := 0 to |requests|
      invariant |stencil| == |elemToBuf| == k && -1 <= bufMaxIndex
      invariant forall i :: 0 <= i < k ==> stencil[i] == ParsedItem(requests[i], i == |requests| - 1)
      invariant forall i :: 0 <= i < k ==> elemToBuf[i] == PartOf(requests[i])
      invariant bufMaxIndex + 1 == NumBuf(requests[..k])
    {
      var req := requests[k];
      NumBufStep(requests, k);
      var bufIndex: int := req.num;
      if bufIndex > bufMaxIndex { bufMaxIndex := bufIndex; }
      var item := ParseOne(req, k == |requests| - 1);
      stencil := stencil + [item];
      elemToBuf := elemToBuf + [if req.size != 0 then Part(req.num, req.hostOffset % TWO32, req.size)
                                else Part(req.num, 0, 0)];
    }
    numBuf := bufMaxIndex + 1;
    assert requests[..|requests|] == requests;
  }

  lemma NumBufOfNone()
    ensures NumBuf([]) == 0
  {
  }

  lemma NumBufStep(requests: seq<DmaRequest>, k: nat)
    requires k < |requests|
    ensures var n := NumBuf(requests[..k]);
            NumBuf(requests[..k + 1]) == if requests[k].num >= n then requests[k].num + 1 else n
  {
    assert requests[..k + 1][..k] == requests[..k];
  }

  /** One request: the DMA, the doorbell and the semaphores. */
  method ParseOne(req: DmaRequest, isLast: bool) returns (item: Item)
    ensures item == ParsedItem(req, isLast)
  {
    hide Encode, SemCmdOf;
    var direction, needResponse, dmaVTCM := NO_TRANSFER, false, true;
    var srcAddr: U64, dstAddr: U64, dmaLen: U32 := 0, 0, 0;
    var dbAddr: U64, dbData: U32, dbWrite: U8, dbLen: U8 := 0, 0, 0, 0;
    if req.size != 0 {
      dmaLen := req.size;
      dmaVTCM := req.devAddrSpace != DDR_SPACE;
      var addr := if dmaVTCM then McOffset(req.mcId, req.devOffset) else req.devOffset;
      if req.inOut == DMA_IN {
        direction, dstAddr := INBOUND, addr;
      } else {
        direction, srcAddr := OUTBOUND, addr;
        if isLast { needResponse := true; }
      }
    }
    if |req.doorbellOps| == 1 {
      var dbOp := req.doorbellOps[0];
      dbAddr, dbData, dbWrite := McOffset(dbOp.mcId, dbOp.offset), dbOp.data, 1;
      if dbOp.size == 0 { dbLen := 2; } else if dbOp.size == 1 { dbLen := 1; }
    }
    var sems := [NO_SEM, NO_SEM, NO_SEM, NO_SEM];
    var j := 0;
    while j < |req.semaphoreOps| && j < |sems|
      invariant |sems| == 4 && 0 <= j <= 4 && j <= |req.semaphoreOps|
      invariant forall i :: 0 <= i < 4 ==> sems[i] == if i < j then SemCmdOf(req.semaphoreOps[i]) else NO_SEM
    {
      sems := sems[j := SemCmdOf(req.semaphoreOps[j])];
      j := j + 1;
    }
    item := Built(
      Element(0, 0, DmaCmd(false, needResponse, BULK, direction), srcAddr, dstAddr, dmaLen, dbAddr, dbWrite, dbLen,
              dbData, sems[0], sems[1], sems[2], sems[3]),
      req.num, dmaVTCM);
  }

  // ------------------------------------------------------------------------------------------------
  // Metadata
  // ------------------------------------------------------------------------------------------------

  class QMetaData {
    const numBuf: nat
    const elemToBufVec: seq<Part>
    const stencil: seq<Item>

    constructor (numBuf: nat, elemToBufVec: seq<Part>, stencil: seq<Item>)
      ensures this.numBuf == numBuf && this.elemToBufVec == elemToBufVec && this.stencil == stencil
    {
      this.numBuf, this.elemToBufVec, this.stencil := numBuf, elemToBufVec, stencil;
    }

    /** The copy for an activated network. */
    method GetUpdatedMetadata(ddrBase: U64, mcIDBase: U64) returns (meta: QMetaData)
      ensures fresh(meta) && meta.numBuf == numBuf && meta.elemToBufVec == elemToBufVec
      ensures |meta.stencil| == |stencil|
      ensures forall i :: 0 <= i < |stencil| ==> meta.stencil[i] == RelocatedItem(stencil[i], ddrBase, mcIDBase)
    {
      hide RelocatedItem;
      var items := [];
      for k := 0 to |stencil|
        invariant |items| == k
        invariant forall i :: 0 <= i < k ==> items[i] == RelocatedItem(stencil[i], ddrBase, mcIDBase)
      {
        items := items + [RelocatedItem(stencil[k], ddrBase, mcIDBase)];
      }
      meta := new QMetaData(numBuf, elemToBufVec, items);
    }

    /** Completes the elements of one batch in the caller's memory. */
    method UpdateDmaReqElements(reqID: U16, bufs: seq<Buffer>, elems: array<Words>, lastReqID: U16)
      returns (status: Status, nextReqID: U16, waitReqID: U16)
      modifies elems
      ensures Result(status, nextReqID, waitReqID, elems[..])
              == UpdateAll(stencil, reqID, bufs, old(elems[..]), lastReqID)
    {
      hide WithReqID, WithHost, Accepts;
      if |stencil| > elems.Length { return Inval, reqID, lastReqID; }
      nextReqID, waitReqID := reqID, lastReqID;
      var i: U16, last: U16 := 0, 0;
      for k := 0 to |stencil|
        invariant i == k % TWO16 && waitReqID == lastReqID
        invariant UpdateFrom(stencil, bufs, k, nextReqID, last, lastReqID, elems[..])
                  == UpdateFrom(stencil, bufs, 0, reqID, 0, lastReqID, old(elems[..]))
      {
        var item := stencil[k];
        if nextReqID + i == 0 { nextReqID := 1; }
        var id := (nextReqID + i) % TWO16;
        ghost var before := elems[..];
        if item.bufIndex == IDX_NO_DMA {
          elems[i] := WithReqID(item.words, id);
          assert elems[..] == before[i := elems[i]];
        } else if item.bufIndex < 0 || item.bufIndex >= |bufs| {
          return Inval, nextReqID, lastReqID;
        } else {
          elems[i] := WithReqID(item.words, id);
          assert elems[..] == before[i := elems[i]];
          if !Accepts(item, bufs[item.bufIndex]) { return Inval, nextReqID, lastReqID; }
          elems[i] := WithHost(elems[i], item.fields.cmd.direction, bufs[item.bufIndex].addr);
          assert elems[..] == before[i := elems[i]];
          if item.fields.cmd.response { last := id; }
        }
        NextSlot(k);
        i := (i + 1) % TWO16;
      }
      status := Success;
      if last != 0 { waitReqID := last; }
      nextReqID := (nextReqID + i) % TWO16;
    }
  }

  lemma NextSlot(k: nat)
    ensures (k + 1) % TWO16 == (k % TWO16 + 1) % TWO16
  {
  }
}
