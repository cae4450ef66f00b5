/**
 The binary metadata image: its logical content, the regions the content is serialized into, and the pointer slots
 that link them. `Image(c, base, t)` is the image of content `c` loaded at address `base` when the first `t` slots
 have been relocated; `Image(c, 0, 0)` is the file.
 */
module MetadataImage {
  import opened ByteCodec
  import opened ChunkLayout
  import opened RecordArrays
  import opened MetadataFormat

  // ------------------------------------------------------------------------------------------------
  // Content
  // ------------------------------------------------------------------------------------------------

  datatype DmaRequest = DmaRequest(
    num: U16, hostOffset: U64, devAddrSpace: U8, devOffset: U64, size: U32, inOut: U8, portId: U16, mcId: U16,
    semaphoreOps: seq<SemaphoreOp>, doorbellOps: seq<DoorbellOp>)

  datatype Content = Content(
    versionMajor: U16, versionMinor: U16, scalars: Scalars, name: seq<Byte>, semaphoreInitState: seq<U32>,
    L2TCMInitState: seq<Byte>, dmaRequests: seq<DmaRequest>, nspTables: seq<seq<NspEntry>>,
    hostTable: seq<HostEntry>, threads: seq<ThreadDescriptor>, mappings: seq<ConstantMapping>)

  // ------------------------------------------------------------------------------------------------
  // Regions
  // ------------------------------------------------------------------------------------------------

  /** The pieces of the image, in the order they are written. */
  datatype Region =
    HeaderRegion | NameRegion | SemaphoreRegion | L2TCMRegion | SemaphoreOpsOf(i: nat) | DoorbellOpsOf(i: nat)
    | RequestRegion | EntriesOf(core: nat) | TableRegion | HostEntryRegion | HostTableRegion | ThreadRegion
    | MappingRegion

  predicate Has(c: Content, r: Region) {
    match r
    case SemaphoreOpsOf(i) => i < |c.dmaRequests|
    case DoorbellOpsOf(i) => i < |c.dmaRequests|
    case EntriesOf(core) => core < |c.nspTables|
    case _ => true
  }

  function Total(c: Content): nat { 10 + 2 * |c.dmaRequests| + |c.nspTables| }

  function IndexOf(c: Content, r: Region): nat {
    var n, m := 2 * |c.dmaRequests|, |c.nspTables|;
    match r
    case HeaderRegion => 0
    case NameRegion => 1
    case SemaphoreRegion => 2
    case L2TCMRegion => 3
    case SemaphoreOpsOf(i) => 4 + 2 * i
    case DoorbellOpsOf(i) => 5 + 2 * i
    case RequestRegion => 4 + n
    case EntriesOf(core) => 5 + n + core
    case TableRegion => 5 + n + m
    case HostEntryRegion => 6 + n + m
    case HostTableRegion => 7 + n + m
    case ThreadRegion => 8 + n + m
    case MappingRegion => 9 + n + m
  }

  function RegionNo(c: Content, k: nat): (r: Region)
    requires k < Total(c)
    ensures Has(c, r) && IndexOf(c, r) == k
  {
    var n, m := 2 * |c.dmaRequests|, |c.nspTables|;
    if k == 0 then HeaderRegion
    else if k == 1 then NameRegion
    else if k == 2 then SemaphoreRegion
    else if k == 3 then L2TCMRegion
    else if k < 4 + n then (if k % 2 == 0 then SemaphoreOpsOf((k - 4) / 2) else DoorbellOpsOf((k - 5) / 2))
    else if k == 4 + n then RequestRegion
    else if k < 5 + n + m then EntriesOf(k - 5 - n)
    else if k == 5 + n + m then TableRegion
    else if k == 6 + n + m then HostEntryRegion
    else if k == 7 + n + m then HostTableRegion
    else if k == 8 + n + m then ThreadRegion
    else MappingRegion
  }

  lemma RegionAt(c: Content, r: Region)
    requires Has(c, r)
    ensures IndexOf(c, r) < Total(c) && RegionNo(c, IndexOf(c, r)) == r
  {
  }

  /** Empty arrays of these regions are not written at all, and their offset is recorded as 0. */
  predicate Skipped(c: Content, r: Region)
    requires Has(c, r)
  {
    match r
    case SemaphoreRegion => c.semaphoreInitState == []
    case L2TCMRegion => c.L2TCMInitState == []
    case SemaphoreOpsOf(i) => c.dmaRequests[i].semaphoreOps == []
    case DoorbellOpsOf(i) => c.dmaRequests[i].doorbellOps == []
    case RequestRegion => c.dmaRequests == []
    case ThreadRegion => c.threads == []
    case MappingRegion => c.mappings == []
    case _ => false
  }

  function SpanOf(c: Content, r: Region): (s: Span)
    requires Has(c, r)
    ensures s.align >= 1
  {
    if Skipped(c, r) then Span(1, 0)
    else
      match r
      case HeaderRegion => Span(8, HEADER_SIZE)
      case NameRegion => Span(1, |c.name| + 1)
      case SemaphoreRegion => Span(4, |c.semaphoreInitState| * 4)
      case L2TCMRegion => Span(1, |c.L2TCMInitState|)
      case SemaphoreOpsOf(i) => Span(2, |c.dmaRequests[i].semaphoreOps| * 8)
      case DoorbellOpsOf(i) => Span(8, |c.dmaRequests[i].doorbellOps| * 16)
      case RequestRegion => Span(8, |c.dmaRequests| * 48)
      case EntriesOf(core) => Span(8, |c.nspTables[core]| * 24)
      case TableRegion => Span(8, |c.nspTables| * 16)
      case HostEntryRegion => Span(4, |c.hostTable| * 8)
      case HostTableRegion => Span(8, 16)
      case ThreadRegion => Span(8, |c.threads| * 16)
      case MappingRegion => Span(8, |c.mappings| * 16)
  }

  function Spans(c: Content): (s: seq<Span>)
    ensures |s| == Total(c) && AlignedSpans(s)
  {
    seq(Total(c), k requires 0 <= k < Total(c) => SpanOf(c, RegionNo(c, k)))
  }

  /** The size of the image. */
  function ImageSize(c: Content): nat { End(Spans(c)) }

  /** Where a region starts. */
  function StartOf(c: Content, r: Region): nat
    requires Has(c, r)
  {
    RegionAt(c, r);
    Start(Spans(c), IndexOf(c, r))
  }

  /** The offset that is recorded for a region. */
  function RecordedOffset(c: Content, r: Region): nat
    requires Has(c, r)
  {
    if Skipped(c, r) then 0 else StartOf(c, r)
  }

  // ------------------------------------------------------------------------------------------------
  // Pointer slots
  // ------------------------------------------------------------------------------------------------

  /** The places in the image that hold an offset in the file and a pointer once relocated. */
  datatype Slot =
    NameSlot | SemaphoreSlot | L2TCMSlot | RequestSlot | SemaphoreOpsSlot(i: nat) | DoorbellOpsSlot(i: nat)
    | TableSlot | EntriesSlot(core: nat) | HostTableSlot | HostEntriesSlot | ThreadSlot | MappingSlot

  predicate HasSlot(c: Content, q: Slot) {
    match q
    case SemaphoreOpsSlot(i) => i < |c.dmaRequests|
    case DoorbellOpsSlot(i) => i < |c.dmaRequests|
    case EntriesSlot(core) => core < |c.nspTables|
    case _ => true
  }

  /** How many requests the header's 16-bit count admits. */
  function CountedRequests(c: Content): (n: nat)
    ensures n <= |c.dmaRequests|
  {
    |c.dmaRequests| % 0x1_0000
  }

  /** The order in which the slots are relocated; those of requests that are not counted are never reached. */
  function Order(c: Content, q: Slot): nat {
    var n, m := 2 * CountedRequests(c), |c.nspTables|;
    match q
    case NameSlot => 0
    case SemaphoreSlot => 1
    case L2TCMSlot => 2
    case RequestSlot => 3
    case SemaphoreOpsSlot(i) => 2 * i + if i < CountedRequests(c) then 4 else 9 + m
    case DoorbellOpsSlot(i) => 2 * i + if i < CountedRequests(c) then 5 else 10 + m
    case TableSlot => 4 + n
    case EntriesSlot(core) => 5 + n + core
    case HostTableSlot => 5 + n + m
    case HostEntriesSlot => 6 + n + m
    case ThreadSlot => 7 + n + m
    case MappingSlot => 8 + n + m
  }

  /** How many slots are relocated. */
  function AllSlots(c: Content): nat { 9 + 2 * CountedRequests(c) + |c.nspTables| }

  /** The region a slot refers to. */
  function Target(q: Slot): Region {
    match q
    case NameSlot => NameRegion
    case SemaphoreSlot => SemaphoreRegion
    case L2TCMSlot => L2TCMRegion
    case RequestSlot => RequestRegion
    case SemaphoreOpsSlot(i) => SemaphoreOpsOf(i)
    case DoorbellOpsSlot(i) => DoorbellOpsOf(i)
    case TableSlot => TableRegion
    case EntriesSlot(core) => EntriesOf(core)
    case HostTableSlot => HostTableRegion
    case HostEntriesSlot => HostEntryRegion
    case ThreadSlot => ThreadRegion
    case MappingSlot => MappingRegion
  }

  /** The region that contains a slot. */
  function Holder(q: Slot): Region {
    match q
    case SemaphoreOpsSlot(_) => RequestRegion
    case DoorbellOpsSlot(_) => RequestRegion
    case EntriesSlot(_) => TableRegion
    case HostEntriesSlot => HostTableRegion
    case _ => HeaderRegion
  }

  /** Where in that region the slot is. */
  function Within(q: Slot): nat {
    match q
    case NameSlot => 8
    case SemaphoreSlot => 16
    case L2TCMSlot => 24
    case RequestSlot => 32
    case TableSlot => 40
    case HostTableSlot => 48
    case ThreadSlot => 56
    case MappingSlot => 64
    case SemaphoreOpsSlot(i) => i * 48 + 0
    case DoorbellOpsSlot(i) => i * 48 + 8
    case EntriesSlot(core) => core * 16 + 0
    case HostEntriesSlot => 0
  }

  /** What a slot holds when the first `t` slots have been relocated to `base`. */
  function SlotValue(c: Content, base: nat, t: nat, q: Slot): U64
    requires HasSlot(c, q)
  {
    (RecordedOffset(c, Target(q)) + if Order(c, q) < t then base else 0) % TWO64
  }

  // ------------------------------------------------------------------------------------------------
  // Bytes
  // ------------------------------------------------------------------------------------------------

  function HeaderOf(c: Content, base: nat, t: nat): Header {
    Header(c.versionMajor, c.versionMinor,
      Tables(SlotValue(c, base, t, NameSlot), SlotValue(c, base, t, SemaphoreSlot), SlotValue(c, base, t, L2TCMSlot),
             SlotValue(c, base, t, RequestSlot), SlotValue(c, base, t, TableSlot),
             SlotValue(c, base, t, HostTableSlot), SlotValue(c, base, t, ThreadSlot),
             SlotValue(c, base, t, MappingSlot)),
      CountsOf(c), c.scalars)
  }

  /** The counts of the header: each is cut to the width of its field. */
  function CountsOf(c: Content): Counts {
    Counts(|c.L2TCMInitState| % 0x1_0000_0000, |c.semaphoreInitState| % 0x1_0000, |c.dmaRequests| % 0x1_0000,
           |c.threads| % 0x1_0000, |c.mappings| % 0x1_0000)
  }

  function RequestOf(c: Content, base: nat, t: nat, i: nat): RequestRecord
    requires i < |c.dmaRequests|
  {
    var r := c.dmaRequests[i];
    RequestRecord(SlotValue(c, base, t, SemaphoreOpsSlot(i)), SlotValue(c, base, t, DoorbellOpsSlot(i)),
                  r.hostOffset, r.devOffset, r.size, r.num, r.mcId, |r.semaphoreOps| % 0x100,
                  |r.doorbellOps| % 0x100, r.devAddrSpace, r.inOut, r.portId)
  }

  function Requests(c: Content, base: nat, t: nat): (s: seq<RequestRecord>)
    ensures |s| == |c.dmaRequests|
  {
    seq(|c.dmaRequests|, i requires 0 <= i < |c.dmaRequests| => RequestOf(c, base, t, i))
  }

  function TableOf(c: Content, base: nat, t: nat, core: nat): TableRecord
    requires core < |c.nspTables|
  {
    TableRecord(SlotValue(c, base, t, EntriesSlot(core)), |c.nspTables[core]| % 0x1_0000)
  }

  function NspTables(c: Content, base: nat, t: nat): (s: seq<TableRecord>)
    ensures |s| == |c.nspTables|
  {
    seq(|c.nspTables|, core requires 0 <= core < |c.nspTables| => TableOf(c, base, t, core))
  }

  function HostTableOf(c: Content, base: nat, t: nat): TableRecord {
    TableRecord(SlotValue(c, base, t, HostEntriesSlot), |c.hostTable| % 0x1_0000)
  }

  function BytesOf(c: Content, base: nat, t: nat, r: Region): seq<Byte>
    requires Has(c, r)
  {
    match r
    case HeaderRegion => EncHeader(HeaderOf(c, base, t))
    case NameRegion => c.name + [0]
    case SemaphoreRegion => EncAll(WORDS, c.semaphoreInitState)
    case L2TCMRegion => c.L2TCMInitState
    case SemaphoreOpsOf(i) => EncAll(SEMAPHORE_OPS, c.dmaRequests[i].semaphoreOps)
    case DoorbellOpsOf(i) => EncAll(DOORBELL_OPS, c.dmaRequests[i].doorbellOps)
    case RequestRegion => EncAll(REQUESTS, Requests(c, base, t))
    case EntriesOf(core) => EncAll(NSP_ENTRIES, c.nspTables[core])
    case TableRegion => EncAll(TABLES, NspTables(c, base, t))
    case HostEntryRegion => EncAll(HOST_ENTRIES, c.hostTable)
    case HostTableRegion => EncTable(HostTableOf(c, base, t))
    case ThreadRegion => EncAll(THREADS, c.threads)
    case MappingRegion => EncAll(MAPPINGS, c.mappings)
  }

  lemma BytesFillSpan(c: Content, base: nat, t: nat, r: Region)
    requires Has(c, r)
    ensures |BytesOf(c, base, t, r)| == SpanOf(c, r).size
  {
    CodecsAreLawful();
    match r
    case SemaphoreRegion => EncAllSize(WORDS, c.semaphoreInitState);
    case SemaphoreOpsOf(i) => EncAllSize(SEMAPHORE_OPS, c.dmaRequests[i].semaphoreOps);
    case DoorbellOpsOf(i) => EncAllSize(DOORBELL_OPS, c.dmaRequests[i].doorbellOps);
    case RequestRegion => EncAllSize(REQUESTS, Requests(c, base, t));
    case EntriesOf(core) => EncAllSize(NSP_ENTRIES, c.nspTables[core]);
    case TableRegion => EncAllSize(TABLES, NspTables(c, base, t));
    case HostEntryRegion => EncAllSize(HOST_ENTRIES, c.hostTable);
    case ThreadRegion => EncAllSize(THREADS, c.threads);
    case MappingRegion => EncAllSize(MAPPINGS, c.mappings);
    case _ =>
  }

  function ChunkOf(c: Content, base: nat, t: nat, r: Region): Chunk
    requires Has(c, r)
  {
    Chunk(SpanOf(c, r).align, BytesOf(c, base, t, r))
  }

  function Chunks(c: Content, base: nat, t: nat): (cs: seq<Chunk>)
    ensures |cs| == Total(c) && Aligned(cs)
  {
    seq(Total(c), k requires 0 <= k < Total(c) => ChunkOf(c, base, t, RegionNo(c, k)))
  }

  function Image(c: Content, base: nat, t: nat): seq<Byte> {
    Lay(Chunks(c, base, t))
  }

  // ------------------------------------------------------------------------------------------------
  // Layout
  // ------------------------------------------------------------------------------------------------

  lemma ChunksFillSpans(c: Content, base: nat, t: nat)
    ensures Fill(Chunks(c, base, t), Spans(c))
  {
    hide SpanOf, BytesOf, RegionNo;
    forall k | 0 <= k < Total(c)
      ensures |Chunks(c, base, t)[k].bytes| == Spans(c)[k].size
    {
      BytesFillSpan(c, base, t, RegionNo(c, k));
    }
  }

  /** Relocation neither moves nor resizes anything. */
  lemma RegionLayout(c: Content, base: nat, t: nat, r: Region)
    requires Has(c, r)
    ensures IndexOf(c, r) < Total(c)
    ensures Chunks(c, base, t)[IndexOf(c, r)] == ChunkOf(c, base, t, r)
    ensures Offset(Chunks(c, base, t), IndexOf(c, r)) == StartOf(c, r)
    ensures |Image(c, base, t)| == ImageSize(c)
  {
    RegionAt(c, r);
    ChunksFillSpans(c, base, t);
    FilledSize(Chunks(c, base, t), Spans(c));
    FilledOffset(Chunks(c, base, t), Spans(c), IndexOf(c, r));
  }

  /** The regions are aligned, lie in the image, hold their bytes, and do not overlap. */
  lemma LayoutIsSafe(c: Content, base: nat, t: nat, r: Region)
    requires Has(c, r)
    ensures StartOf(c, r) % SpanOf(c, r).align == 0
    ensures StartOf(c, r) + SpanOf(c, r).size <= |Image(c, base, t)| == ImageSize(c)
    ensures Image(c, base, t)[StartOf(c, r)..StartOf(c, r) + SpanOf(c, r).size] == BytesOf(c, base, t, r)
    ensures forall q :: Has(c, q) && IndexOf(c, q) < IndexOf(c, r) ==>
      StartOf(c, q) + SpanOf(c, q).size <= StartOf(c, r)
  {
    hide SpanOf, BytesOf, RegionNo, IndexOf, Lay;
    var cs := Chunks(c, base, t);
    RegionLayout(c, base, t, r);
    BytesFillSpan(c, base, t, r);
    ChunkBounds(cs, IndexOf(c, r));
    ReadChunk(cs, IndexOf(c, r));
    forall q | Has(c, q) && IndexOf(c, q) < IndexOf(c, r)
      ensures StartOf(c, q) + SpanOf(c, q).size <= StartOf(c, r)
    {
      RegionLayout(c, base, t, q);
      BytesFillSpan(c, base, t, q);
      ChunksDisjoint(cs, IndexOf(c, q), IndexOf(c, r));
    }
  }
}
