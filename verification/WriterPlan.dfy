/**
 What `Finalize` is to write, chunk by chunk: which chunk holds which region, which offsets are recorded, and that
 the chunks written so far are a prefix of the image.
 */
module WriterPlan {
  import opened Division
  import opened ByteCodec
  import opened ChunkLayout
  import opened RecordArrays
  import opened MetadataFormat
  import opened MetadataImage
  import opened MetadataWriter
  import R = MetadataRelocation

  /** A DMA request as it is staged: its record and its operations. */
  datatype StagedRequest =
    StagedRequest(request: RequestRecord, semaphoreOps: seq<SemaphoreOp>, doorbellOps: seq<DoorbellOp>)

  function Logical(r: StagedRequest): DmaRequest {
    var q := r.request;
    DmaRequest(q.num, q.hostOffset, q.devAddrSpace, q.devOffset, q.size, q.inOut, q.portId, q.mcId, r.semaphoreOps,
               r.doorbellOps)
  }

  function AllLogical(rs: seq<StagedRequest>): (xs: seq<DmaRequest>)
    ensures |xs| == |rs|
  {
    seq(|rs|, i requires 0 <= i < |rs| => Logical(rs[i]))
  }

  // ------------------------------------------------------------------------------------------------
  // Chunks and the offsets recorded for them
  // ------------------------------------------------------------------------------------------------

  function ArrayChunk(align: nat, bytes: seq<Byte>): (c: Chunk)
    ensures align >= 1 ==> c.align >= 1
  {
    if bytes == [] then Chunk(1, []) else Chunk(align, bytes)
  }

  function OffsetOrZero(cs: seq<Chunk>, k: nat): nat
    requires Aligned(cs) && k < |cs|
  {
    if cs[k].bytes == [] then 0 else Offset(cs, k)
  }

  /** The record of a request whose operations are chunks `k` and `k + 1`. */
  function RecordFor(cs: seq<Chunk>, k: nat, r: DmaRequest): RequestRecord
    requires Aligned(cs) && k + 1 < |cs|
  {
    RequestRecord(OffsetOrZero(cs, k) % TWO64, OffsetOrZero(cs, k + 1) % TWO64, r.hostOffset, r.devOffset, r.size,
                  r.num, r.mcId, |r.semaphoreOps| % 0x100, |r.doorbellOps| % 0x100, r.devAddrSpace, r.inOut, r.portId)
  }

  /** The chunks from `k` on hold the operations of the staged requests, and `xs` are their completed records. */
  predicate RequestsPlanned(xs: seq<RequestRecord>, cs: seq<Chunk>, k: nat, rs: seq<StagedRequest>) {
    && Aligned(cs) && |xs| == |rs| && k + 2 * |rs| <= |cs|
    && forall i :: 0 <= i < |rs| ==>
         && cs[k + 2 * i] == ArrayChunk(2, EncAll(SEMAPHORE_OPS, rs[i].semaphoreOps))
         && cs[k + 2 * i + 1] == ArrayChunk(8, EncAll(DOORBELL_OPS, rs[i].doorbellOps))
         && xs[i] == RecordFor(cs, k + 2 * i, Logical(rs[i]))
  }

  /** Chunk `k` holds the entries of a core's table, and `t` refers to them. */
  predicate TablePlanned(t: TableRecord, cs: seq<Chunk>, k: nat, entries: seq<NspEntry>) {
    && Aligned(cs) && k < |cs| && cs[k] == Chunk(8, EncAll(NSP_ENTRIES, entries))
    && t.entries == Offset(cs, k) && t.numEntries == |entries| % 0x1_0000
  }

  predicate TablesPlanned(ts: seq<TableRecord>, cs: seq<Chunk>, k: nat, entries: seq<seq<NspEntry>>) {
    |ts| == |entries| && forall i :: 0 <= i < |entries| ==> TablePlanned(ts[i], cs, k + i, entries[i])
  }

  /** Chunk `k` holds the host's entries and the next one its table `t`. */
  predicate HostPlanned(t: TableRecord, cs: seq<Chunk>, k: nat, host: seq<HostEntry>) {
    && Aligned(cs) && k + 1 < |cs| && cs[k] == Chunk(4, EncAll(HOST_ENTRIES, host))
    && t.entries == Offset(cs, k) && t.numEntries == |host| % 0x1_0000 && cs[k + 1] == Chunk(8, EncTable(t))
  }

  /** The arrays of an image of content `c`. */
  predicate ArraysPlanned(cs: seq<Chunk>, c: Content)
    requires |cs| == Total(c)
  {
    var n, m := 2 * |c.dmaRequests|, |c.nspTables|;
    && cs[1] == Chunk(1, c.name + [0])
    && cs[2] == ArrayChunk(4, EncAll(WORDS, c.semaphoreInitState))
    && cs[3] == ArrayChunk(1, c.L2TCMInitState)
    && cs[4 + n] == ArrayChunk(8, EncAll(REQUESTS, Requests(c, 0, 0)))
    && cs[5 + n + m] == ArrayChunk(8, EncAll(TABLES, NspTables(c, 0, 0)))
    && cs[8 + n + m] == ArrayChunk(8, EncAll(THREADS, c.threads))
    && cs[9 + n + m] == ArrayChunk(8, EncAll(MAPPINGS, c.mappings))
  }

  /** The chunks of an image of content `c`, whose requests are staged as `rs`. */
  predicate Planned(cs: seq<Chunk>, c: Content, rs: seq<StagedRequest>) {
    var n, m := 2 * |c.dmaRequests|, |c.nspTables|;
    && |cs| == Total(c) && Aligned(cs) && |rs| == |c.dmaRequests|
    && ArraysPlanned(cs, c)
    && RequestsPlanned(Requests(c, 0, 0), cs, 4, rs)
    && TablesPlanned(NspTables(c, 0, 0), cs, 5 + n, c.nspTables)
    && HostPlanned(HostTableOf(c, 0, 0), cs, 6 + n + m, c.hostTable)
  }

  /** The header's pointers behind the name. */
  predicate TablesOf(cs: seq<Chunk>, c: Content, t: Tables)
    requires Aligned(cs) && |cs| == Total(c)
  {
    var n, m := 2 * |c.dmaRequests|, |c.nspTables|;
    && t.semaphoreInitState == OffsetOrZero(cs, 2) && t.L2TCMInitState == OffsetOrZero(cs, 3)
    && t.dmaRequests == OffsetOrZero(cs, 4 + n) && t.nspMulticastTables == OffsetOrZero(cs, 5 + n + m)
    && t.hostMulticastTable == Offset(cs, 7 + n + m) && t.threadDescriptors == OffsetOrZero(cs, 8 + n + m)
    && t.constantMappings == OffsetOrZero(cs, 9 + n + m)
  }

  /** The first chunk holds these bytes. */
  predicate BeginsWith(cs: seq<Chunk>, bytes: seq<Byte>) {
    |cs| >= 1 && Aligned(cs) && Place([], Chunk(8, bytes)) == Lay(cs[..1])
  }

  /** Placing the next chunk extends the image by it. */
  lemma NextChunk(cs: seq<Chunk>, k: nat)
    requires Aligned(cs) && k < |cs|
    ensures Place(Lay(cs[..k]), cs[k]) == Lay(cs[..k + 1])
    ensures AlignTo(|Lay(cs[..k])|, cs[k].align) == Offset(cs, k)
    ensures Offset(cs, k) + |cs[k].bytes| <= |Lay(cs)|
  {
    ChunkBounds(cs, k);
    assert cs[..k + 1][..k] == cs[..k];
  }

  lemma NoRecords<T>(codec: Codec<T>, align: nat, xs: seq<T>, cs: seq<Chunk>, k: nat)
    requires Aligned(cs) && k <= |cs|
    ensures Lay(cs[..k]) == Place(Lay(cs[..k]), ArrayChunk(align, EncAll(codec, xs[..0])))
    ensures xs == [] && k < |cs| && cs[k] == ArrayChunk(align, EncAll(codec, xs)) ==> OffsetOrZero(cs, k) == 0
  {
    EmptyChunk(Lay(cs[..k]));
  }

  /** An array without records takes no space. */
  lemma SkipChunk<T>(codec: Codec<T>, align: nat, xs: seq<T>, cs: seq<Chunk>, k: nat)
    requires Aligned(cs) && k < |cs| && cs[k] == ArrayChunk(align, EncAll(codec, xs))
    ensures xs == [] ==> Lay(cs[..k + 1]) == Lay(cs[..k]) && OffsetOrZero(cs, k) == 0
  {
    NextChunk(cs, k);
    EmptyChunk(Lay(cs[..k]));
    hide Lay;
  }

  /** Placing one record more behind the first `i`. */
  lemma NextRecord<T(!new)>(codec: Codec<T>, align: nat, xs: seq<T>, i: nat, cs: seq<Chunk>, k: nat)
    requires Aligned(cs) && k < |cs| && Lawful(codec) && align >= 1
    requires codec.size % align == 0 && i < |xs| && cs[k] == ArrayChunk(align, EncAll(codec, xs))
    ensures var s := Place(Lay(cs[..k]), ArrayChunk(align, EncAll(codec, xs[..i])));
            && Place(s, Chunk(align, codec.enc(xs[i])))
               == Place(Lay(cs[..k]), ArrayChunk(align, EncAll(codec, xs[..i + 1])))
            && AlignTo(|s|, align) + codec.size <= |Lay(cs)|
            && (i == 0 ==> AlignTo(|s|, align) == OffsetOrZero(cs, k))
  {
    var s, done := Lay(cs[..k]), EncAll(codec, xs[..i]);
    RecordSizes(codec, align, xs, i);
    NextChunk(cs, k);
    hide Lay, EncAll, Lawful;
    EmptyChunk(s);
    if i > 0 {
      PlaceIsContiguous(s, align, done, codec.enc(xs[i]));
      ContiguousEnd(s, align, done);
    }
  }

  lemma RecordSizes<T(!new)>(codec: Codec<T>, align: nat, xs: seq<T>, i: nat)
    requires Lawful(codec) && align >= 1 && codec.size % align == 0 && i < |xs|
    ensures EncAll(codec, xs[..i + 1]) == EncAll(codec, xs[..i]) + codec.enc(xs[i])
    ensures |codec.enc(xs[i])| == codec.size > 0
    ensures |EncAll(codec, xs[..i])| % align == 0 && (EncAll(codec, xs[..i]) == [] <==> i == 0)
    ensures |EncAll(codec, xs[..i])| + codec.size <= |EncAll(codec, xs)|
  {
    EncAllSize(codec, xs);
    EncAllSize(codec, xs[..i]);
    SizesUpTo(i, |xs|, codec.size, align);
    EncAllSplit(codec, xs, i);
    EncAllSplit(codec, xs[..i + 1], i);
    assert xs[..i + 1][..i] == xs[..i] && xs[..i + 1][i + 1..] == [];
    hide *;
  }

  lemma SizesUpTo(i: nat, n: nat, size: nat, align: nat)
    requires i < n && size >= 1 && align >= 1 && size % align == 0
    ensures (i * size) % align == 0 && i * size + size <= n * size && (i * size == 0 <==> i == 0)
  {
    Fewer(i + 1, n, size);
    Fewer(1, i, size);
    Multiple(i, size, align);
    assert (i + 1) * size == i * size + size;
  }

  lemma Multiple(i: nat, size: nat, align: nat)
    requires align >= 1 && size % align == 0
    ensures (i * size) % align == 0
  {
    if i > 0 {
      Multiple(i - 1, size, align);
      assert i * size == (i - 1) * size + size;
      SumMod((i - 1) * size, size, align);
    }
  }

  lemma ContiguousEnd(s: seq<Byte>, align: nat, done: seq<Byte>)
    requires align >= 1 && |done| % align == 0
    ensures AlignTo(|Place(s, Chunk(align, done))|, align) == AlignTo(|s|, align) + |done|
  {
    PlaceIsContiguous(s, align, done, []);
  }

  // ------------------------------------------------------------------------------------------------
  // The chunks of an image follow the plan
  // ------------------------------------------------------------------------------------------------

  /** Entry arrays are written even when they are empty. */
  predicate AlwaysWritten(r: Region) { r.EntriesOf? || r.HostEntryRegion? }

  /** Where a region is not always written, its chunk is empty exactly when it is skipped. */
  lemma ChunkIsArray(c: Content, r: Region)
    requires Has(c, r) && !AlwaysWritten(r) && c.nspTables != []
    ensures ChunkOf(c, 0, 0, r) == ArrayChunk(ElementAlign(r), BytesOf(c, 0, 0, r))
    ensures Skipped(c, r) <==> BytesOf(c, 0, 0, r) == []
  {
    BytesFillSpan(c, 0, 0, r);
    hide BytesOf;
  }

  /** The alignment of a region's elements. */
  function ElementAlign(r: Region): nat {
    match r
    case NameRegion => 1
    case L2TCMRegion => 1
    case SemaphoreOpsOf(_) => 2
    case SemaphoreRegion => 4
    case HostEntryRegion => 4
    case _ => 8
  }

  /** In the file a slot holds the recorded offset. */
  lemma OffsetFits(c: Content, q: Slot)
    requires HasSlot(c, q) && ImageSize(c) < TWO64
    ensures SlotValue(c, 0, 0, q) == RecordedOffset(c, Target(q)) <= ImageSize(c)
  {
    hide RecordedOffset, ImageSize, Image;
    R.OffsetInRange(c, 0, 0, Target(q));
  }

  /** `cs` are the chunks of an image of `c`, whatever its header. */
  ghost predicate Behind(cs: seq<Chunk>, c: Content) {
    && |cs| == Total(c) && Aligned(cs) && c.nspTables != [] && ImageSize(c) < TWO64
    && forall r :: Has(c, r) && r != HeaderRegion ==> At(cs, c, r)
  }

  predicate At(cs: seq<Chunk>, c: Content, r: Region)
    requires Aligned(cs) && Has(c, r)
  {
    IndexOf(c, r) < |cs| && cs[IndexOf(c, r)] == ChunkOf(c, 0, 0, r) && Offset(cs, IndexOf(c, r)) == StartOf(c, r)
  }

  lemma UnpatchedIsBehind(c: Content, h0: Header)
    requires c.nspTables != [] && ImageSize(c) < TWO64
    ensures Behind(Unpatched(c, h0), c) && |Lay(Unpatched(c, h0))| == ImageSize(c)
  {
    hide Unpatched, ImageSize, StartOf, ChunkOf, Offset, Lay, IndexOf;
    UnpatchedLayout(c, h0, NameRegion);
    forall r | Has(c, r) && r != HeaderRegion ensures At(Unpatched(c, h0), c, r) { UnpatchedLayout(c, h0, r); }
  }

  /** The chunk that holds a region. */
  function PlannedChunk(c: Content, r: Region): Chunk
    requires Has(c, r)
  {
    if AlwaysWritten(r) then Chunk(ElementAlign(r), BytesOf(c, 0, 0, r))
    else ArrayChunk(ElementAlign(r), BytesOf(c, 0, 0, r))
  }

  lemma ChunkIsPlanned(c: Content, r: Region)
    requires Has(c, r) && c.nspTables != []
    ensures ChunkOf(c, 0, 0, r) == PlannedChunk(c, r)
  {
    hide BytesOf;
    if !AlwaysWritten(r) { ChunkIsArray(c, r); }
  }

  lemma ChunkAt(cs: seq<Chunk>, c: Content, r: Region)
    requires Behind(cs, c) && Has(c, r) && r != HeaderRegion
    ensures |cs| == Total(c) && Aligned(cs) && IndexOf(c, r) < |cs|
    ensures cs[IndexOf(c, r)] == PlannedChunk(c, r) && Offset(cs, IndexOf(c, r)) == StartOf(c, r)
  {
    assert At(cs, c, r);
    ChunkIsPlanned(c, r);
    hide Behind, ImageSize, StartOf, Offset, BytesOf, IndexOf, ChunkOf, PlannedChunk;
  }

  /** The offset that a slot records. */
  lemma SlotOffset(cs: seq<Chunk>, c: Content, q: Slot)
    requires Behind(cs, c) && HasSlot(c, q)
    ensures |cs| == Total(c) && Aligned(cs) && IndexOf(c, Target(q)) < |cs|
    ensures SlotValue(c, 0, 0, q) ==
            if AlwaysWritten(Target(q)) then Offset(cs, IndexOf(c, Target(q)))
            else OffsetOrZero(cs, IndexOf(c, Target(q)))
  {
    hide Behind, SlotValue, StartOf, BytesOf, ImageSize, IndexOf, Offset, RecordedOffset;
    SizeIs(cs, c);
    ChunkAt(cs, c, Target(q));
    OffsetFits(c, q);
    RecordedAt(c, Target(q));
  }

  /** The recorded offset is 0 exactly for empty arrays that are not written. */
  lemma RecordedAt(c: Content, r: Region)
    requires Has(c, r) && c.nspTables != []
    ensures RecordedOffset(c, r) == if !AlwaysWritten(r) && BytesOf(c, 0, 0, r) == [] then 0 else StartOf(c, r)
  {
    hide BytesOf, StartOf;
    if !AlwaysWritten(r) { ChunkIsArray(c, r); }
  }

  lemma RequestIsPlanned(cs: seq<Chunk>, c: Content, i: nat)
    requires Behind(cs, c) && i < |c.dmaRequests|
    ensures |cs| == Total(c) && Aligned(cs)
    ensures var r := c.dmaRequests[i];
            && cs[4 + 2 * i] == ArrayChunk(2, EncAll(SEMAPHORE_OPS, r.semaphoreOps))
            && cs[4 + 2 * i + 1] == ArrayChunk(8, EncAll(DOORBELL_OPS, r.doorbellOps))
            && RequestOf(c, 0, 0, i) == RecordFor(cs, 4 + 2 * i, r)
  {
    hide Behind, SlotValue, OffsetOrZero, EncAll, ArrayChunk, StartOf, Offset;
    ChunkAt(cs, c, SemaphoreOpsOf(i));
    ChunkAt(cs, c, DoorbellOpsOf(i));
    SlotOffset(cs, c, SemaphoreOpsSlot(i));
    SlotOffset(cs, c, DoorbellOpsSlot(i));
  }

  lemma RequestsArePlanned(cs: seq<Chunk>, c: Content, rs: seq<StagedRequest>)
    requires Behind(cs, c) && c.dmaRequests == AllLogical(rs)
    ensures RequestsPlanned(Requests(c, 0, 0), cs, 4, rs)
  {
    SizeIs(cs, c);
    hide Behind, EncAll, ArrayChunk, RecordFor, RequestOf;
    forall i | 0 <= i < |rs|
      ensures cs[4 + 2 * i] == ArrayChunk(2, EncAll(SEMAPHORE_OPS, rs[i].semaphoreOps))
      ensures cs[4 + 2 * i + 1] == ArrayChunk(8, EncAll(DOORBELL_OPS, rs[i].doorbellOps))
      ensures Requests(c, 0, 0)[i] == RecordFor(cs, 4 + 2 * i, Logical(rs[i]))
    {
      RequestIsPlanned(cs, c, i);
      assert c.dmaRequests[i] == Logical(rs[i]);
    }
  }

  lemma SizeIs(cs: seq<Chunk>, c: Content)
    requires Behind(cs, c)
    ensures |cs| == 10 + 2 * |c.dmaRequests| + |c.nspTables| && Aligned(cs)
    ensures c.nspTables != [] && ImageSize(c) < TWO64
  {
    hide ImageSize, IndexOf, ChunkOf, Offset, StartOf;
  }

  lemma TableIsPlanned(cs: seq<Chunk>, c: Content, j: nat)
    requires Behind(cs, c) && j < |c.nspTables|
    ensures TablePlanned(TableOf(c, 0, 0, j), cs, 5 + 2 * |c.dmaRequests| + j, c.nspTables[j])
  {
    hide Behind, SlotValue, Offset, EncAll, StartOf;
    ChunkAt(cs, c, EntriesOf(j));
    SlotOffset(cs, c, EntriesSlot(j));
  }

  lemma TablesArePlanned(cs: seq<Chunk>, c: Content)
    requires Behind(cs, c)
    ensures TablesPlanned(NspTables(c, 0, 0), cs, 5 + 2 * |c.dmaRequests|, c.nspTables)
  {
    hide Behind, TablePlanned, TableOf;
    forall j | 0 <= j < |c.nspTables|
      ensures TablePlanned(NspTables(c, 0, 0)[j], cs, 5 + 2 * |c.dmaRequests| + j, c.nspTables[j])
    {
      TableIsPlanned(cs, c, j);
    }
  }

  lemma HostIsPlanned(cs: seq<Chunk>, c: Content)
    requires Behind(cs, c)
    ensures HostPlanned(HostTableOf(c, 0, 0), cs, 6 + 2 * |c.dmaRequests| + |c.nspTables|, c.hostTable)
  {
    hide Behind, SlotValue, Offset, EncAll, EncTable, StartOf;
    SizeIs(cs, c);
    HostChunks(cs, c);
    HostOffset(cs, c);
  }

  lemma HostChunks(cs: seq<Chunk>, c: Content)
    requires Behind(cs, c)
    ensures |cs| == Total(c)
    ensures var k := 6 + 2 * |c.dmaRequests| + |c.nspTables|;
            && cs[k] == Chunk(4, EncAll(HOST_ENTRIES, c.hostTable))
            && cs[k + 1] == Chunk(8, EncTable(HostTableOf(c, 0, 0)))
  {
    hide Behind, Offset, EncAll, EncTable, StartOf, HostTableOf;
    ChunkAt(cs, c, HostEntryRegion);
    ChunkAt(cs, c, HostTableRegion);
  }

  lemma HostOffset(cs: seq<Chunk>, c: Content)
    requires Behind(cs, c)
    ensures |cs| == Total(c) && Aligned(cs)
    ensures HostTableOf(c, 0, 0).entries == Offset(cs, 6 + 2 * |c.dmaRequests| + |c.nspTables|)
  {
    hide Behind, Offset, SlotValue, StartOf;
    SlotOffset(cs, c, HostEntriesSlot);
  }

  lemma PlanIs(cs: seq<Chunk>, c: Content, rs: seq<StagedRequest>)
    requires Behind(cs, c) && c.dmaRequests == AllLogical(rs)
    ensures Planned(cs, c, rs)
  {
    hide Behind, ArraysPlanned, RequestsPlanned, TablesPlanned, HostPlanned, Requests, NspTables, HostTableOf;
    SizeIs(cs, c);
    RequestsArePlanned(cs, c, rs);
    TablesArePlanned(cs, c);
    HostIsPlanned(cs, c);
    ArraysArePlanned(cs, c);
  }

  lemma ArraysArePlanned(cs: seq<Chunk>, c: Content)
    requires Behind(cs, c)
    ensures |cs| == Total(c) && ArraysPlanned(cs, c)
  {
    hide Behind, EncAll, Requests, NspTables, StartOf, Offset;
    ChunkAt(cs, c, NameRegion);
    ChunkAt(cs, c, SemaphoreRegion);
    ChunkAt(cs, c, L2TCMRegion);
    ChunkAt(cs, c, RequestRegion);
    ChunkAt(cs, c, TableRegion);
    ChunkAt(cs, c, ThreadRegion);
    ChunkAt(cs, c, MappingRegion);
  }

  lemma NameChunk(cs: seq<Chunk>, c: Content, rs: seq<StagedRequest>)
    requires Planned(cs, c, rs)
    ensures |cs| == Total(c) && Aligned(cs) && cs[1] == Chunk(1, c.name + [0])
  {
    hide RequestsPlanned, TablesPlanned, HostPlanned, EncAll, ArrayChunk, Requests, NspTables;
  }

  /** With these offsets the header's pointers are the image's. */
  lemma PointersAreComplete(cs: seq<Chunk>, c: Content, t: Tables)
    requires Behind(cs, c) && |cs| == Total(c) && Aligned(cs)
    requires TablesOf(cs, c, t) && t.networkName == Offset(cs, 1)
    ensures HeaderOf(c, 0, 0).tables == t
  {
    hide Behind, SlotValue, Offset, OffsetOrZero;
    SlotOffset(cs, c, NameSlot);
    SlotOffset(cs, c, SemaphoreSlot);
    SlotOffset(cs, c, L2TCMSlot);
    SlotOffset(cs, c, RequestSlot);
    SlotOffset(cs, c, TableSlot);
    SlotOffset(cs, c, HostTableSlot);
    SlotOffset(cs, c, ThreadSlot);
    SlotOffset(cs, c, MappingSlot);
    NotEmpty(cs, c, NameRegion);
    NotEmpty(cs, c, HostTableRegion);
  }

  lemma NotEmpty(cs: seq<Chunk>, c: Content, r: Region)
    requires Behind(cs, c) && (r == NameRegion || r == HostTableRegion)
    ensures |cs| == Total(c) && Aligned(cs) && IndexOf(c, r) < |cs|
    ensures OffsetOrZero(cs, IndexOf(c, r)) == Offset(cs, IndexOf(c, r))
  {
    hide Behind, Offset, StartOf, EncTable;
    ChunkAt(cs, c, r);
  }

  /** The start of `Finalize`: the provisional header, and the chunks to write behind it. */
  lemma StartIsPlanned(c: Content, h0: Header, rs: seq<StagedRequest>)
    requires c.dmaRequests == AllLogical(rs) && c.nspTables != [] && ImageSize(c) < 0x8000_0000
    ensures var cs := Unpatched(c, h0);
            Planned(cs, c, rs) && Behind(cs, c) && |Lay(cs)| < 0x8000_0000
            && |cs| >= 2 && Place([], Chunk(8, EncHeader(h0))) == Lay(cs[..1])
    ensures AlignTo(0, 8) == 0 && |EncHeader(h0)| == HEADER_SIZE
  {
    hide Unpatched, Planned, Behind, EncHeader, Lay, ImageSize;
    UnpatchedIsBehind(c, h0);
    PlanIs(Unpatched(c, h0), c, rs);
    FirstRegion(c, h0);
    SizeIs(Unpatched(c, h0), c);
  }

  /** The end of `Finalize`: patching the completed header turns the chunks into the image. */
  lemma EndIsImage(c: Content, h0: Header)
    ensures var s := Lay(Unpatched(c, h0));
            HEADER_SIZE < |s| && Patch(s, 0, EncHeader(HeaderOf(c, 0, 0))) == Image(c, 0, 0)
  {
    hide *;
    LastPatch(c, h0);
    WrittenAll(c, h0);
  }

  lemma HeaderIsImageHeader(c: Content, h: Header)
    requires h == Header(c.versionMajor, c.versionMinor, HeaderOf(c, 0, 0).tables, CountsOf(c), c.scalars)
    ensures HeaderOf(c, 0, 0) == h
  {
    hide SlotValue, CountsOf;
  }
}
