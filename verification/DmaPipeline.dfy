/**
 From metadata requests to request elements: parsing, relocation and the final update, as functions, and what the
 resulting words mean in terms of the request.
 */
module DmaPipeline {
  import opened ByteCodec
  import opened MetadataFormat
  import opened MetadataImage
  import opened DmaElement

  const MCID_ADDR_MULTI_FAC := 0x80_0000
  const IDX_NO_DMA := -1
  const DDR_SPACE: U8 := 1
  const DMA_IN: U8 := 0

  /** A stencil element: its fields, the words it holds, its buffer and whether its device side is in VTCM. */
  datatype Item = Item(fields: Element, words: Words, bufIndex: int, vtcm: bool)

  /** Which part of which buffer an element transfers. */
  datatype Part = Part(bufIndex: U32, offset: U32, size: U32)

  /** A user buffer; address 0 stands for none. */
  datatype Buffer = Buffer(addr: U64, size: nat)

  // ------------------------------------------------------------------------------------------------
  // Parsing
  // ------------------------------------------------------------------------------------------------

  /** A multicast offset, in the arithmetic of the code: the product and the sum wrap at 64 bits. */
  function McOffset(mcId: U16, offset: U64): U64 { (MCID_ADDR_MULTI_FAC * mcId + offset) % TWO64 }

  function Direction(r: DmaRequest): bv8 {
    if r.size == 0 then NO_TRANSFER else if r.inOut == DMA_IN then INBOUND else OUTBOUND
  }

  /** The device side of the transfer before relocation. */
  function DeviceOffset(r: DmaRequest): U64 {
    if r.devAddrSpace != DDR_SPACE then McOffset(r.mcId, r.devOffset) else r.devOffset
  }

  function SemCmdOf(o: SemaphoreOp): SemCmd {
    SemCmd(true, o.inSyncFence != 0, o.outSyncFence != 0, o.semOp as bv8, o.preOrPost != 0, (o.semNum % 256) as bv8,
           o.semValue as bv16)
  }

  /** Semaphore `j` of the element; operations beyond the fourth are dropped. */
  function SemNo(r: DmaRequest, j: nat): SemCmd {
    if j < |r.semaphoreOps| then SemCmdOf(r.semaphoreOps[j]) else NO_SEM
  }

  /** The element's length code for the size in the metadata. */
  function DoorbellLen(size: U8): U8 { if size == 0 then 2 else if size == 1 then 1 else 0 }

  function ParsedElement(r: DmaRequest, isLast: bool): Element {
    var dir := Direction(r);
    var rings := |r.doorbellOps| == 1;
    Element(0, 0, DmaCmd(false, dir == OUTBOUND && isLast, BULK, dir),
            if dir == OUTBOUND then DeviceOffset(r) else 0,
            if dir == INBOUND then DeviceOffset(r) else 0,
            r.size,
            if rings then McOffset(r.doorbellOps[0].mcId, r.doorbellOps[0].offset) else 0,
            if rings then 1 else 0,
            if rings then DoorbellLen(r.doorbellOps[0].size) else 0,
            if rings then r.doorbellOps[0].data else 0,
            SemNo(r, 0), SemNo(r, 1), SemNo(r, 2), SemNo(r, 3))
  }

  /** The element built from its fields. */
  function Built(e: Element, bufIndex: int, vtcm: bool): (it: Item)
  {
    Item(e, Encode(e), bufIndex, vtcm)
  }

  function ParsedItem(r: DmaRequest, isLast: bool): Item {
    Built(ParsedElement(r, isLast), r.num, r.size == 0 || r.devAddrSpace != DDR_SPACE)
  }

  function Stencil(rs: seq<DmaRequest>): (items: seq<Item>)
    ensures |items| == |rs|
  {
    seq(|rs|, i requires 0 <= i < |rs| => ParsedItem(rs[i], i == |rs| - 1))
  }

  /** The part of its buffer that a request transfers; the offset is cut to 32 bits. */
  function PartOf(r: DmaRequest): Part {
    if r.size != 0 then Part(r.num, r.hostOffset % TWO32, r.size) else Part(r.num, 0, 0)
  }

  function ElemToBuf(rs: seq<DmaRequest>): (cs: seq<Part>)
    ensures |cs| == |rs|
  {
    seq(|rs|, i requires 0 <= i < |rs| => PartOf(rs[i]))
  }

  /** One more than the highest buffer number. */
  function NumBuf(rs: seq<DmaRequest>): (n: nat)
    ensures forall i :: 0 <= i < |rs| ==> rs[i].num < n
    ensures n > 0 ==> exists i :: 0 <= i < |rs| && rs[i].num == n - 1
  {
    if rs == [] then 0
    else
      var n, last := NumBuf(rs[..|rs| - 1]), rs[|rs| - 1].num;
      if last >= n then last + 1 else n
  }

  // ------------------------------------------------------------------------------------------------
  // Relocation and update
  // ------------------------------------------------------------------------------------------------

  /** The copy for an activated network. */
  function RelocatedItem(it: Item, ddrBase: U64, mcIDBase: U64): (r: Item)
  {
    Built(Relocate(Decode(it.words), it.vtcm, ddrBase, mcIDBase), it.bufIndex, it.vtcm)
  }

  /** The words with the low half of word 0 replaced by the request ID. */
  function WithReqID(ws: Words, reqID: U16): (r: Words)
  {
    ws[0 := ws[0] / TWO16 * TWO16 + reqID]
  }

  /** The words with the host side set to an address. */
  function WithHost(ws: Words, dir: bv8, addr: U64): (r: Words)
  {
    if dir == INBOUND then ws[2 := Low(addr)][3 := High(addr)]
    else if dir == OUTBOUND then ws[4 := Low(addr)][5 := High(addr)]
    else ws
  }

  /** Is the buffer there and large enough for the transfer? */
  predicate Accepts(it: Item, buf: Buffer)
  {
    it.fields.cmd.direction == NO_TRANSFER || (buf.addr != 0 && it.words[6] <= buf.size)
  }

  function Updated(it: Item, reqID: U16, buf: Buffer): (ws: Words)
  {
    WithHost(WithReqID(it.words, reqID), it.fields.cmd.direction, buf.addr)
  }

  // ------------------------------------------------------------------------------------------------
  // What the words mean
  // ------------------------------------------------------------------------------------------------

  /** The operations that an element has room for are within the hardware's fields; others are dropped. */
  predicate WithinLimits(r: DmaRequest) {
    && (forall j :: 0 <= j < |r.semaphoreOps| && j < 4 ==>
          var o := r.semaphoreOps[j]; o.semNum < 32 && o.semOp <= 6 && o.semValue <= 4095)
    && (|r.doorbellOps| == 1 ==> r.doorbellOps[0].size <= 2)
  }

  /** Where the device side of the transfer is. */
  function DeviceAddress(r: DmaRequest, ddrBase: U64, mcIDBase: U64): U64 {
    if r.devAddrSpace == DDR_SPACE then (ddrBase + r.devOffset) % TWO64
    else (mcIDBase + MCID_ADDR_MULTI_FAC * r.mcId + r.devOffset) % TWO64
  }

  function DoorbellAddress(o: DoorbellOp, mcIDBase: U64): U64 {
    (mcIDBase + MCID_ADDR_MULTI_FAC * o.mcId + o.offset) % TWO64
  }

  /** The element a request stands for, in the request's own terms. */
  function Meaning(r: DmaRequest, isLast: bool, reqID: U16, hostAddr: U64, ddrBase: U64, mcIDBase: U64): Element {
    var device := DeviceAddress(r, ddrBase, mcIDBase);
    var dir := Direction(r);
    var e := Element(reqID, 0, DmaCmd(false, dir == OUTBOUND && isLast, BULK, dir), 0, 0, r.size, 0, 0, 0, 0,
                     SemNo(r, 0), SemNo(r, 1), SemNo(r, 2), SemNo(r, 3));
    var moved := if dir == INBOUND then e.(src := hostAddr, dst := device)
                 else if dir == OUTBOUND then e.(src := device, dst := hostAddr)
                 else e;
    if |r.doorbellOps| != 1 then moved
    else
      var o := r.doorbellOps[0];
      moved.(dbAddr := DoorbellAddress(o, mcIDBase), dbWrite := 1, dbLen := DoorbellLen(o.size), dbData := o.data)
  }

  lemma SemFits(r: DmaRequest, j: nat)
    requires WithinLimits(r) && j < 4
    ensures SemNo(r, j).Fits() && SemNo(r, j).IsValid()
  {
    if j < |r.semaphoreOps| {
      var o := r.semaphoreOps[j];
      SmallBits(o.semNum, o.semOp, o.semValue);
    }
  }

  lemma SmallBits(semNum: U16, semOp: U8, value: U16)
    requires semNum < 32 && semOp <= 6 && value <= 4095
    ensures (semNum % 256) as bv8 < 32 && semOp as bv8 < 7 && value as bv16 <= 4095
  {
  }

  lemma ParsedFits(r: DmaRequest, isLast: bool)
    requires WithinLimits(r)
    ensures ParsedElement(r, isLast).Fits() && ParsedElement(r, isLast).IsValid()
  {
    SemFits(r, 0);
    SemFits(r, 1);
    SemFits(r, 2);
    SemFits(r, 3);
    hide SemNo, SemCmd.Fits, SemCmd.IsValid;
  }

  /** Offsets and base may be added in either order. */
  lemma AddressOf(mcId: U16, offset: U64, mcIDBase: U64)
    ensures Add(McOffset(mcId, offset), mcIDBase) == (mcIDBase + MCID_ADDR_MULTI_FAC * mcId + offset) % TWO64
  {
    var x := MCID_ADDR_MULTI_FAC * mcId + offset;
    assert x % TWO64 == if x < TWO64 then x else x - TWO64;
  }

  /** Relocating a parsed element gives its meaning, but for the host side and the request ID. */
  lemma RelocatedParsed(r: DmaRequest, isLast: bool, ddrBase: U64, mcIDBase: U64)
    ensures Relocate(ParsedElement(r, isLast), r.size == 0 || r.devAddrSpace != DDR_SPACE, ddrBase, mcIDBase)
            == Meaning(r, isLast, 0, 0, ddrBase, mcIDBase)
  {
    hide SemNo, Add, McOffset;
    AddressOf(r.mcId, r.devOffset, mcIDBase);
    assert Add(r.devOffset, ddrBase) == (ddrBase + r.devOffset) % TWO64 by { AddCommutes(r.devOffset, ddrBase); }
    if |r.doorbellOps| == 1 {
      AddressOf(r.doorbellOps[0].mcId, r.doorbellOps[0].offset, mcIDBase);
      AddZero(McOffset(r.doorbellOps[0].mcId, r.doorbellOps[0].offset));
    }
  }

  lemma AddCommutes(a: U64, b: U64)
    ensures Add(a, b) == (b + a) % TWO64
  {
  }

  lemma AddZero(a: U64)
    ensures Add(a, 0) == a
  {
  }

  /** The update sets the request ID and the host side in what the words mean. */
  lemma UpdateMeans(ws: Words, reqID: U16, dir: bv8, addr: U64)
    ensures var e, r := Decode(ws), Decode(WithHost(WithReqID(ws, reqID), dir, addr));
            r == e.(reqID := reqID, src := if dir == INBOUND then addr else e.src,
                    dst := if dir == OUTBOUND then addr else e.dst)
  {
    hide DecodeCmd, SemOfWord, Wide, High, Low, WriteOf, LenOf, ReqIDOf, SeqIDOf, CmdOf;
    WideRoundTrip(addr);
    NewReqID(ws[0], reqID);
  }

  lemma NewReqID(w: U32, reqID: U16)
    ensures var v := w / TWO16 * TWO16 + reqID;
            v < TWO32 && ReqIDOf(v) == reqID && SeqIDOf(v) == SeqIDOf(w) && CmdOf(v) == CmdOf(w)
  {
    var q := w / TWO16;
    assert w == q * TWO16 + w % TWO16;
    assert (q * TWO16 + reqID) / TWO16 == q;
    assert w / 0x100_0000 == q / 256 && (q * TWO16 + reqID) / 0x100_0000 == q / 256;
  }

  /** The relocated element: its fields are the request's meaning, and its words carry them. */
  lemma RelocatedMeaning(r: DmaRequest, isLast: bool, ddrBase: U64, mcIDBase: U64)
    requires WithinLimits(r)
    ensures var it := RelocatedItem(ParsedItem(r, isLast), ddrBase, mcIDBase);
            && it.fields == Meaning(r, isLast, 0, 0, ddrBase, mcIDBase) && it.fields.IsValid()
            && Decode(it.words) == it.fields && it.bufIndex == r.num
  {
    var e, vtcm := ParsedElement(r, isLast), r.size == 0 || r.devAddrSpace != DDR_SPACE;
    hide Encode, Decode, Relocate, ParsedElement, WithinLimits, Meaning, Element.Fits, Element.IsValid;
    ParsedFits(r, isLast);
    ElementRoundTripIff(e);
    RelocatedParsed(r, isLast, ddrBase, mcIDBase);
    RelocateKeepsFit(e, vtcm, ddrBase, mcIDBase);
    KeepsValid(e, vtcm, ddrBase, mcIDBase);
    ElementRoundTripIff(Relocate(e, vtcm, ddrBase, mcIDBase));
  }

  lemma KeepsValid(e: Element, vtcm: bool, ddrBase: U64, mcIDBase: U64)
    ensures Relocate(e, vtcm, ddrBase, mcIDBase).IsValid() <==> e.IsValid()
  {
    hide Shifted, SemCmd.IsValid, DmaCmd.IsValid;
  }

  /**
   The whole pipeline: parsing the requests, relocating element `i` to the network's bases and updating it with a
   request ID and a buffer yields words that mean the request.
   */
  lemma PipelineMeaning(rs: seq<DmaRequest>, i: nat, ddrBase: U64, mcIDBase: U64, reqID: U16, buf: Buffer)
    requires i < |rs| && WithinLimits(rs[i])
    ensures Decode(Updated(RelocatedItem(Stencil(rs)[i], ddrBase, mcIDBase), reqID, buf))
            == Meaning(rs[i], i == |rs| - 1, reqID, buf.addr, ddrBase, mcIDBase)
  {
    hide Encode, Decode, Relocate, WithReqID, WithHost, WithinLimits, RelocatedItem, Meaning, ParsedItem;
    var isLast := i == |rs| - 1;
    var it := RelocatedItem(ParsedItem(rs[i], isLast), ddrBase, mcIDBase);
    assert Stencil(rs)[i] == ParsedItem(rs[i], isLast);
    RelocatedMeaning(rs[i], isLast, ddrBase, mcIDBase);
    UpdateMeans(it.words, reqID, it.fields.cmd.direction, buf.addr);
    MeaningUpdated(rs[i], isLast, reqID, buf.addr, ddrBase, mcIDBase);
  }

  lemma MeaningUpdated(r: DmaRequest, isLast: bool, reqID: U16, addr: U64, ddrBase: U64, mcIDBase: U64)
    ensures var e := Meaning(r, isLast, 0, 0, ddrBase, mcIDBase);
            Meaning(r, isLast, reqID, addr, ddrBase, mcIDBase)
            == e.(reqID := reqID, src := if e.cmd.direction == INBOUND then addr else e.src,
                  dst := if e.cmd.direction == OUTBOUND then addr else e.dst)
  {
    hide SemNo, DeviceAddress, DoorbellAddress;
  }
}
