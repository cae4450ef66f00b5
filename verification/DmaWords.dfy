/**
 What the parser, the relocation and the update put into the sixteen words of an element and into the kernel's slice
 entry, read off the request bit by bit.
 */
module DmaWords {
  import opened Wrappers
  import opened ByteCodec
  import opened MetadataFormat
  import opened MetadataImage
  import opened DmaElement
  import opened DmaPipeline
  import opened DmaUpdate
  import opened DmaMetaData

  // ------------------------------------------------------------------------------------------------
  // Semaphores
  // ------------------------------------------------------------------------------------------------

  /** The command says what the operation says. */
  predicate CommandSays(s: SemCmd, o: SemaphoreOp) {
    && s.enable && (s.ibSync <==> o.inSyncFence != 0) && (s.obSync <==> o.outSyncFence != 0)
    && s.cmdID == o.semOp as bv8 && (s.sync <==> o.preOrPost != 0)
    && o.semNum < 0x100 && s.semID == o.semNum as bv8 && s.value == o.semValue as bv16
  }

  /** No command. */
  predicate CommandIsOff(s: SemCmd) {
    !s.enable && !s.ibSync && !s.obSync && s.cmdID == 0 && !s.sync && s.semID == 0 && s.value == 0
  }

  /** The j-th semaphore of an element. */
  function SemAt(e: Element, j: nat): SemCmd
    requires j < 4
  {
    [e.sem0, e.sem1, e.sem2, e.sem3][j]
  }

  lemma SemNoSays(r: DmaRequest, j: nat)
    requires WithinLimits(r) && j < 4
    ensures if j < |r.semaphoreOps| then CommandSays(SemNo(r, j), r.semaphoreOps[j]) else CommandIsOff(SemNo(r, j))
  {
    if j < |r.semaphoreOps| { assert r.semaphoreOps[j].semNum % 256 == r.semaphoreOps[j].semNum; }
  }

  /** Semaphore `j` of the completed words says what operation `j` of the request says, and is off if there is none. */
  lemma SemaphoresMean(rs: seq<DmaRequest>, i: nat, ddrBase: U64, mcIDBase: U64, reqID: U16, buf: Buffer, j: nat)
    requires i < |rs| && WithinLimits(rs[i]) && j < 4
    ensures var s := SemAt(Decode(Updated(Network(rs, ddrBase, mcIDBase)[i], reqID, buf)), j);
            if j < |rs[i].semaphoreOps| then CommandSays(s, rs[i].semaphoreOps[j]) else CommandIsOff(s)
  {
    hide WithinLimits, Decode, Updated, RelocatedItem, CommandSays, CommandIsOff, SemNo, DeviceAddress, DoorbellAddress,
      Stencil;
    PipelineMeaning(rs, i, ddrBase, mcIDBase, reqID, buf);
    SemNoSays(rs[i], j);
  }

  /** The bits of a semaphore word, by their masks; the others are clear. */
  predicate WordSays(w: bv32, o: SemaphoreOp) {
    && w & 0x8000_0000 != 0
    && (w & 0x4000_0000 != 0 <==> o.inSyncFence != 0) && (w & 0x2000_0000 != 0 <==> o.outSyncFence != 0)
    && w & 0x0700_0000 == (o.semOp as bv32) << 24
    && (w & 0x0040_0000 != 0 <==> o.preOrPost != 0)
    && w & 0x001F_0000 == (o.semNum as bv32) << 16
    && w & 0x0000_0FFF == o.semValue as bv32
    && w & 0x18A0_F000 == 0
  }

  /** The word says what operation `j` says, or is 0 if there is none. */
  predicate SemaphoreSays(w: U32, r: DmaRequest, j: nat) {
    if j < |r.semaphoreOps| then WordSays(w as bv32, r.semaphoreOps[j]) else w == 0
  }

  lemma SemWordSays(r: DmaRequest, j: nat)
    requires WithinLimits(r) && j < 4
    ensures SemaphoreSays(SemWord(SemNo(r, j)), r, j)
  {
    if j < |r.semaphoreOps| {
      var o := r.semaphoreOps[j];
      SmallerKept(o);
      BitsOfOperation(o, SemCmdOf(o));
      hide EncodeSem;
      BitsOfWord(EncodeSem(SemNo(r, j)));
    } else {
      assert EncodeSem(NO_SEM) == 0;
    }
  }

  lemma BitsOfOperation(o: SemaphoreOp, s: SemCmd)
    requires s.enable && (s.ibSync <==> o.inSyncFence != 0) && (s.obSync <==> o.outSyncFence != 0)
    requires s.sync <==> o.preOrPost != 0
    requires s.cmdID as bv32 == o.semOp as bv32 < 8 && s.semID as bv32 == o.semNum as bv32 < 32
    requires s.value as bv32 == o.semValue as bv32 < 4096
    ensures WordSays(EncodeSem(s), o)
  {
    BitsSay(s, o.semOp as bv32, o.semNum as bv32, o.semValue as bv32);
    hide EncodeSem;
  }

  lemma SmallerKept(o: SemaphoreOp)
    requires o.semNum < 32 && o.semOp <= 6 && o.semValue <= 4095
    ensures (o.semOp as bv8) as bv32 == o.semOp as bv32 < 8
    ensures ((o.semNum % 256) as bv8) as bv32 == o.semNum as bv32 < 32
    ensures (o.semValue as bv16) as bv32 == o.semValue as bv32 < 4096
  {
  }

  lemma BitsSay(s: SemCmd, op: bv32, num: bv32, value: bv32)
    requires s.enable && s.cmdID as bv32 == op < 8 && s.semID as bv32 == num < 32 && s.value as bv32 == value < 4096
    ensures var w := EncodeSem(s);
            && w & 0x8000_0000 != 0 && (w & 0x4000_0000 != 0 <==> s.ibSync) && (w & 0x2000_0000 != 0 <==> s.obSync)
            && w & 0x0700_0000 == op << 24 && (w & 0x0040_0000 != 0 <==> s.sync)
            && w & 0x001F_0000 == num << 16 && w & 0x0000_0FFF == value && w & 0x18A0_F000 == 0
  {
  }

  // ------------------------------------------------------------------------------------------------
  // All words
  // ------------------------------------------------------------------------------------------------

  predicate IsIn(r: DmaRequest) { r.size != 0 && r.inOut == 0 }

  predicate IsOut(r: DmaRequest) { r.size != 0 && r.inOut != 0 }

  /** Where the device side of the transfer is: in DDR behind its base, or in the multicast space behind the other. */
  function DeviceSide(r: DmaRequest, ddrBase: U64, mcIDBase: U64): U64 {
    if r.devAddrSpace == 1 then (ddrBase + r.devOffset) % 0x1_0000_0000_0000_0000
    else (mcIDBase + 0x80_0000 * r.mcId + r.devOffset) % 0x1_0000_0000_0000_0000
  }

  function Pair(ws: Words, k: nat): nat
    requires k < 15
  {
    var low: nat, high: nat := ws[k], ws[k + 1];
    low + 0x1_0000_0000 * high
  }

  /** Words 0 to 7: ID and command, host and device address, length. */
  predicate TransferSays(ws: Words, r: DmaRequest, isLast: bool, reqID: U16, hostAddr: U64, device: U64) {
    && ws[0] == reqID + 0x100_0000 * (8 + (if IsOut(r) && isLast then 16 else 0)
                                        + (if IsIn(r) then 1 else if IsOut(r) then 2 else 0))
    && ws[1] == 0
    && Pair(ws, 2) == (if IsIn(r) then hostAddr else if IsOut(r) then device else 0)
    && Pair(ws, 4) == (if IsIn(r) then device else if IsOut(r) then hostAddr else 0)
    && ws[6] == r.size && ws[7] == 0
  }

  /** Words 8 to 11: the doorbell, if there is exactly one. */
  predicate DoorbellSays(ws: Words, r: DmaRequest, mcIDBase: U64) {
    if |r.doorbellOps| != 1 then Pair(ws, 8) == 0 && ws[10] == 0 && ws[11] == 0
    else
      var o := r.doorbellOps[0];
      && Pair(ws, 8) == (mcIDBase + 0x80_0000 * o.mcId + o.offset) % 0x1_0000_0000_0000_0000
      && ws[10] == 0x80 + (if o.size == 0 then 2 else if o.size == 1 then 1 else 0) && ws[11] == o.data
  }

  /** Words 12 to 15: the first four semaphores. */
  predicate SemaphoresSay(ws: Words, r: DmaRequest) {
    && SemaphoreSays(ws[12], r, 0) && SemaphoreSays(ws[13], r, 1)
    && SemaphoreSays(ws[14], r, 2) && SemaphoreSays(ws[15], r, 3)
  }

  predicate WordsSay(ws: Words, r: DmaRequest, isLast: bool, reqID: U16, hostAddr: U64, ddrBase: U64, mcIDBase: U64) {
    && TransferSays(ws, r, isLast, reqID, hostAddr, DeviceSide(r, ddrBase, mcIDBase))
    && DoorbellSays(ws, r, mcIDBase) && SemaphoresSay(ws, r)
  }

  /** The request ID and the host side may be encoded at once. */
  lemma UpdatedEncodes(e: Element, reqID: U16, dir: bv8, addr: U64)
    ensures WithHost(WithReqID(Encode(e), reqID), dir, addr)
            == Encode(e.(reqID := reqID, src := if dir == INBOUND then addr else e.src,
                         dst := if dir == OUTBOUND then addr else e.dst))
  {
    hide EncodeCmd, SemWord, Low, High, DoorbellWord;
    IDInFirstWord(e.reqID, reqID, e.seqID, EncodeCmd(e.cmd));
  }

  lemma IDInFirstWord(was: U16, reqID: U16, seqID: U8, cmd: bv8)
    ensures FirstWord(was, seqID, cmd) / TWO16 * TWO16 + reqID == FirstWord(reqID, seqID, cmd)
  {
    var rest := seqID + (cmd as int) * 256;
    assert FirstWord(was, seqID, cmd) == was + rest * TWO16;
    assert FirstWord(was, seqID, cmd) / TWO16 == rest;
  }

  /** The completed words of a request encode its meaning. */
  lemma CompletedEncodes(rs: seq<DmaRequest>, i: nat, ddrBase: U64, mcIDBase: U64, reqID: U16, buf: Buffer)
    requires i < |rs| && WithinLimits(rs[i])
    ensures Updated(Network(rs, ddrBase, mcIDBase)[i], reqID, buf)
            == Encode(Meaning(rs[i], i == |rs| - 1, reqID, buf.addr, ddrBase, mcIDBase))
  {
    hide WithinLimits, Encode, Decode, ParsedItem, Meaning, WithReqID, WithHost, Relocate, Network, Element.IsValid;
    NetworkItem(rs, i, ddrBase, mcIDBase);
    var isLast := i == |rs| - 1;
    RelocatedMeaning(rs[i], isLast, ddrBase, mcIDBase);
    var e := Meaning(rs[i], isLast, 0, 0, ddrBase, mcIDBase);
    UpdatedEncodes(e, reqID, e.cmd.direction, buf.addr);
    MeaningUpdated(rs[i], isLast, reqID, buf.addr, ddrBase, mcIDBase);
  }

  lemma CommandByte(out: bool, last: bool, dir: bv8)
    requires dir == NO_TRANSFER || dir == INBOUND || dir == OUTBOUND
    ensures EncodeCmd(DmaCmd(false, out && last, BULK, dir)) as int
            == 8 + (if out && last then 16 else 0) + (if dir == INBOUND then 1 else if dir == OUTBOUND then 2 else 0)
  {
    var b := EncodeCmd(DmaCmd(false, out && last, BULK, dir));
    assert b == (8 + (if out && last then 16 else 0)
                 + (if dir == INBOUND then 1 else if dir == OUTBOUND then 2 else 0));
  }

  /** Where the fields of an element are. */
  lemma EncodedFields(e: Element)
    ensures var ws := Encode(e);
            && ws[0] == FirstWord(e.reqID, e.seqID, EncodeCmd(e.cmd)) && ws[1] == 0 && Pair(ws, 2) == e.src
            && Pair(ws, 4) == e.dst && ws[6] == e.len && ws[7] == 0 && Pair(ws, 8) == e.dbAddr
            && ws[10] == DoorbellWord(e.dbWrite, e.dbLen) && ws[11] == e.dbData
  {
    hide FirstWord, EncodeCmd, SemWord, DoorbellWord;
    HalvesOf(e.src);
    HalvesOf(e.dst);
    HalvesOf(e.dbAddr);
    hide Low, High;
  }

  lemma HalvesOf(a: U64)
    ensures Low(a) + 0x1_0000_0000 * High(a) == a
  {
  }

  lemma FirstWordIs(reqID: U16, cmd: bv8, c: nat)
    requires cmd as int == c
    ensures FirstWord(reqID, 0, cmd) == reqID + 0x100_0000 * c
  {
  }

  lemma TransferOfMeaning(r: DmaRequest, isLast: bool, reqID: U16, hostAddr: U64, ddrBase: U64, mcIDBase: U64)
    ensures TransferSays(Encode(Meaning(r, isLast, reqID, hostAddr, ddrBase, mcIDBase)), r, isLast, reqID, hostAddr,
                         DeviceSide(r, ddrBase, mcIDBase))
  {
    hide SemNo, SemWord, DoorbellWord, EncodeCmd, DoorbellAddress, Encode, FirstWord, DeviceSide, DeviceAddress, Pair;
    var e := Meaning(r, isLast, reqID, hostAddr, ddrBase, mcIDBase);
    DeviceSideIs(r, ddrBase, mcIDBase);
    EncodedFields(e);
    CommandByte(IsOut(r), isLast, Direction(r));
    FirstWordIs(reqID, EncodeCmd(e.cmd),
                8 + (if IsOut(r) && isLast then 16 else 0) + (if IsIn(r) then 1 else if IsOut(r) then 2 else 0));
  }

  lemma DeviceSideIs(r: DmaRequest, ddrBase: U64, mcIDBase: U64)
    ensures DeviceAddress(r, ddrBase, mcIDBase) == DeviceSide(r, ddrBase, mcIDBase)
  {
  }

  lemma DoorbellOfMeaning(r: DmaRequest, isLast: bool, reqID: U16, hostAddr: U64, ddrBase: U64, mcIDBase: U64)
    ensures DoorbellSays(Encode(Meaning(r, isLast, reqID, hostAddr, ddrBase, mcIDBase)), r, mcIDBase)
  {
    hide SemNo, SemWord, FirstWord, EncodeCmd, DeviceAddress, Encode, Pair, DoorbellWord, DoorbellAddress, Direction;
    EncodedFields(Meaning(r, isLast, reqID, hostAddr, ddrBase, mcIDBase));
    NoDoorbell();
    if |r.doorbellOps| == 1 { DoorbellIs(r.doorbellOps[0], mcIDBase); }
  }

  lemma NoDoorbell()
    ensures DoorbellWord(0, 0) == 0
  {
  }

  lemma DoorbellIs(o: DoorbellOp, mcIDBase: U64)
    ensures DoorbellAddress(o, mcIDBase) == (mcIDBase + 0x80_0000 * o.mcId + o.offset) % 0x1_0000_0000_0000_0000
    ensures DoorbellWord(1, DoorbellLen(o.size)) == 0x80 + (if o.size == 0 then 2 else if o.size == 1 then 1 else 0)
  {
  }

  lemma SemaphoreWords(e: Element)
    ensures var ws := Encode(e);
            && ws[12] == SemWord(e.sem0) && ws[13] == SemWord(e.sem1)
            && ws[14] == SemWord(e.sem2) && ws[15] == SemWord(e.sem3)
  {
    hide FirstWord, EncodeCmd, SemWord, DoorbellWord, Low, High;
  }

  lemma MeaningSems(r: DmaRequest, isLast: bool, reqID: U16, hostAddr: U64, ddrBase: U64, mcIDBase: U64)
    ensures var e := Meaning(r, isLast, reqID, hostAddr, ddrBase, mcIDBase);
            && e.sem0 == SemNo(r, 0) && e.sem1 == SemNo(r, 1) && e.sem2 == SemNo(r, 2) && e.sem3 == SemNo(r, 3)
  {
    hide SemNo, DeviceAddress, DoorbellAddress;
  }

  lemma SemaphoresOfMeaning(r: DmaRequest, isLast: bool, reqID: U16, hostAddr: U64, ddrBase: U64, mcIDBase: U64)
    requires WithinLimits(r)
    ensures SemaphoresSay(Encode(Meaning(r, isLast, reqID, hostAddr, ddrBase, mcIDBase)), r)
  {
    hide SemNo, SemWord, Encode, Meaning, WithinLimits, SemaphoreSays;
    SemaphoreWords(Meaning(r, isLast, reqID, hostAddr, ddrBase, mcIDBase));
    MeaningSems(r, isLast, reqID, hostAddr, ddrBase, mcIDBase);
    SemWordSays(r, 0);
    SemWordSays(r, 1);
    SemWordSays(r, 2);
    SemWordSays(r, 3);
  }

  lemma MeaningSays(r: DmaRequest, isLast: bool, reqID: U16, hostAddr: U64, ddrBase: U64, mcIDBase: U64)
    requires WithinLimits(r)
    ensures WordsSay(Encode(Meaning(r, isLast, reqID, hostAddr, ddrBase, mcIDBase)), r, isLast, reqID, hostAddr,
                     ddrBase, mcIDBase)
  {
    hide Encode, Meaning, TransferSays, DoorbellSays, SemaphoresSay, WithinLimits;
    TransferOfMeaning(r, isLast, reqID, hostAddr, ddrBase, mcIDBase);
    DoorbellOfMeaning(r, isLast, reqID, hostAddr, ddrBase, mcIDBase);
    SemaphoresOfMeaning(r, isLast, reqID, hostAddr, ddrBase, mcIDBase);
  }

  /** A completed batch whose IDs start at `first`. */
  predicate ResultSays(r: Result, rs: seq<DmaRequest>, first: U16, bufs: seq<Buffer>, elems: seq<Words>,
                       lastReqID: U16, ddrBase: U64, mcIDBase: U64)
    requires 0 < |rs| <= |elems|
  {
    && r.status == Success && r.reqID == (first + |rs|) % 0x1_0000 && |r.elems| == |elems|
    && (forall i :: |rs| <= i < |elems| ==> r.elems[i] == elems[i])
    && (forall i :: 0 <= i < |rs| ==>
          rs[i].num < |bufs|
          && WordsSay(r.elems[i], rs[i], i == |rs| - 1, (first + i) % 0x1_0000, bufs[rs[i].num].addr, ddrBase,
                      mcIDBase))
    && var last := (first + |rs| - 1) % 0x1_0000;
       r.lastReqID == if IsOut(rs[|rs| - 1]) && last != 0 then last else lastReqID
  }

  /**
   A batch on an activated network in the hardware's terms: when every buffer is supplied, each bit of element `i` says
   what request `i` says, under the i-th request ID, and the ID to wait for is that of the last request if it goes to
   the host.
   */
  lemma BatchSays(rs: seq<DmaRequest>, ddrBase: U64, mcIDBase: U64, reqID: U16, bufs: seq<Buffer>, elems: seq<Words>,
                  lastReqID: U16, r: Result)
    requires 0 < |rs| <= |elems| && |rs| <= TWO16 && forall i :: 0 <= i < |rs| ==> WithinLimits(rs[i])
    requires forall i :: 0 <= i < |rs| ==> Supplied(rs[i], bufs)
    requires r == UpdateAll(Network(rs, ddrBase, mcIDBase), reqID, bufs, elems, lastReqID)
    ensures ResultSays(r, rs, if reqID == 0 then 1 else reqID, bufs, elems, lastReqID, ddrBase, mcIDBase)
  {
    hide UpdateAll, Ready, WithinLimits, Network, WordsSay, Updated, Meaning, Encode, LastResponse, IsOut;
    var items, first := Network(rs, ddrBase, mcIDBase), FirstID(reqID);
    UpdateIs(items, reqID, bufs, elems, lastReqID);
    forall i | 0 <= i < |rs| ensures Ready(items[i], bufs) && items[i].bufIndex == rs[i].num {
      ReadyIffSupplied(rs, i, bufs, ddrBase, mcIDBase);
    }
    forall i | 0 <= i < |rs|
      ensures WordsSay(Completed(items[i], bufs, IDNo(reqID, i)), rs[i], i == |rs| - 1, IDNo(reqID, i),
                       bufs[rs[i].num].addr, ddrBase, mcIDBase)
    {
      CompletedEncodes(rs, i, ddrBase, mcIDBase, IDNo(reqID, i), bufs[rs[i].num]);
      MeaningSays(rs[i], i == |rs| - 1, IDNo(reqID, i), bufs[rs[i].num].addr, ddrBase, mcIDBase);
    }
    LastAsks(rs, ddrBase, mcIDBase, first, 0, 0);
  }

  /** Only the last request asks for a response, if it goes to the host. */
  lemma {:induction false} LastAsks(rs: seq<DmaRequest>, ddrBase: U64, mcIDBase: U64, first: U16, k: nat, last: U16)
    requires k < |rs| && forall i :: 0 <= i < |rs| ==> WithinLimits(rs[i])
    ensures LastResponse(Network(rs, ddrBase, mcIDBase), first, k, last)
            == if IsOut(rs[|rs| - 1]) then Nth(first, |rs| - 1) else last
    decreases |rs| - k
  {
    hide Network, WithinLimits, IsOut, Nth;
    AsksIff(rs, k, ddrBase, mcIDBase);
    if k < |rs| - 1 { LastAsks(rs, ddrBase, mcIDBase, first, k + 1, last); }
  }

  lemma AsksIff(rs: seq<DmaRequest>, k: nat, ddrBase: U64, mcIDBase: U64)
    requires k < |rs| && WithinLimits(rs[k])
    ensures var it := Network(rs, ddrBase, mcIDBase)[k];
            it.bufIndex != IDX_NO_DMA && (it.fields.cmd.response <==> k == |rs| - 1 && IsOut(rs[k]))
  {
    hide Network, WithinLimits, RelocatedItem, ParsedItem, Decode, Element.IsValid, DeviceAddress, DoorbellAddress,
      SemNo;
    NetworkItem(rs, k, ddrBase, mcIDBase);
    RelocatedMeaning(rs[k], k == |rs| - 1, ddrBase, mcIDBase);
  }

  // ------------------------------------------------------------------------------------------------
  // The kernel's slice entry
  // ------------------------------------------------------------------------------------------------

  predicate KernelSemSays(k: KernelSem, o: SemaphoreOp) {
    && k.val == o.semValue as bv16 && o.semNum < 0x100 && k.index == o.semNum as bv8 && k.cmd == o.semOp as bv8
    && (k.presync <==> o.preOrPost != 0)
    && (k.inSyncFence <==> o.inSyncFence != 0) && (k.outSyncFence <==> o.outSyncFence != 0)
  }

  predicate KernelSemIsOff(k: KernelSem) {
    k.val == 0 && k.index == 0 && k.cmd == 0 && !k.presync && !k.inSyncFence && !k.outSyncFence
  }

  function KernelSemAt(s: Slice, j: nat): KernelSem
    requires j < 4
  {
    [s.sem0, s.sem1, s.sem2, s.sem3][j]
  }

  /** The slice entry says what the request says: device side, doorbell with its length in bits, semaphores. */
  predicate SliceSays(s: Slice, r: DmaRequest, ddrBase: U64, mcIDBase: U64) {
    && s.devAddr == (if r.size == 0 then 0 else DeviceSide(r, ddrBase, mcIDBase))
    && (if |r.doorbellOps| != 1 then s.dbAddr == 0 && s.dbLen == 0 && s.dbData == 0
        else
          var o := r.doorbellOps[0];
          && s.dbAddr == (mcIDBase + 0x80_0000 * o.mcId + o.offset) % 0x1_0000_0000_0000_0000
          && s.dbData == o.data && s.dbLen == (if o.size == 0 then 8 else if o.size == 1 then 16 else 32))
    && forall j :: 0 <= j < 4 ==>
         if j < |r.semaphoreOps| then KernelSemSays(KernelSemAt(s, j), r.semaphoreOps[j])
         else KernelSemIsOff(KernelSemAt(s, j))
  }

  lemma SliceForSays(r: DmaRequest, ddrBase: U64, mcIDBase: U64)
    requires WithinLimits(r)
    ensures SliceSays(SliceFor(r, ddrBase, mcIDBase), r, ddrBase, mcIDBase)
  {
    hide WithinLimits, SemNo;
    var s := SliceFor(r, ddrBase, mcIDBase);
    forall j | 0 <= j < 4
      ensures if j < |r.semaphoreOps| then KernelSemSays(KernelSemAt(s, j), r.semaphoreOps[j])
              else KernelSemIsOff(KernelSemAt(s, j))
    {
      SemNoSays(r, j);
    }
  }
}
