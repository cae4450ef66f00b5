/** The file, byte by byte: what is found where, without decoding it. */
module MetadataFile {
  import opened ByteCodec
  import opened FieldOffsets
  import opened RecordArrays
  import opened MetadataFormat
  import opened MetadataOffsets
  import opened MetadataImage
  import opened MetadataRelocation
  import opened MetadataReader

  /** What `finalize` hands out. */
  function File(c: Content): seq<Byte> { Image(c, 0, 0) }

  /** The bytes of a region lie in the file where the region starts. */
  lemma InRegion(c: Content, r: Region)
    requires Has(c, r)
    ensures Lies(BytesOf(c, 0, 0, r), File(c), StartOf(c, r))
  {
    hide BytesOf, SpanOf, Image, StartOf;
    LayoutIsSafe(c, 0, 0, r);
    BytesFillSpan(c, 0, 0, r);
  }

  /** Record `i` of an array lies behind those in front of it. */
  lemma RecordLies<T(!new)>(codec: Codec<T>, xs: seq<T>, i: nat)
    requires Lawful(codec) && i < |xs|
    ensures Lies(codec.enc(xs[i]), EncAll(codec, xs), i * codec.size)
  {
    hide EncAll, Lawful;
    EncAllSplit(codec, xs, i);
  }

  /** Record `i` of an array that lies in the file. */
  lemma InArray<T(!new)>(codec: Codec<T>, xs: seq<T>, s: seq<Byte>, start: nat, i: nat)
    requires Lawful(codec) && Lies(EncAll(codec, xs), s, start) && i < |xs|
    ensures Lies(codec.enc(xs[i]), s, start + i * codec.size)
  {
    hide EncAll, Lawful, Lies;
    RecordLies(codec, xs, i);
    LiesWithin(codec.enc(xs[i]), EncAll(codec, xs), s, i * codec.size, start);
  }

  /** The offset that the file holds for an array: 0 if it is empty. */
  function OffsetOf<T>(c: Content, xs: seq<T>, r: Region): nat
    requires Has(c, r)
  {
    if xs == [] then 0 else StartOf(c, r)
  }

  lemma SlotIs(c: Content, q: Slot)
    requires WellFormed(c) && HasSlot(c, q)
    ensures SlotValue(c, 0, 0, q) == RecordedOffset(c, Target(q))
  {
    hide Image, ImageSize, RecordedOffset, Order;
    OffsetInRange(c, 0, 0, Target(q));
  }

  lemma InHeader(c: Content)
    ensures TablesAt(File(c), HeaderOf(c, 0, 0)) && SizesAt(File(c), 72, HeaderOf(c, 0, 0))
    ensures CountsAt(File(c), 120, HeaderOf(c, 0, 0)) && FlagsAt(File(c), 132, HeaderOf(c, 0, 0))
    ensures MemoryAt(File(c), 144, HeaderOf(c, 0, 0))
  {
    hide Value, EncHeader, File, StartOf, ImageSize, HeaderOf, Lies;
    var h := HeaderOf(c, 0, 0);
    InRegion(c, HeaderRegion);
    HeaderAtZero(c);
    HeaderFieldsAt(h);
    ValueIn(EncHeader(h), File(c), 0);
  }

  /** The versions, and the offsets of the eight regions that the header refers to. */
  lemma HeaderOffsets(c: Content)
    requires WellFormed(c)
    ensures var s := File(c);
            && Value(s, 0, 2, c.versionMajor) && Value(s, 2, 2, c.versionMinor)
            && Value(s, 8, 8, StartOf(c, NameRegion))
            && Value(s, 16, 8, OffsetOf(c, c.semaphoreInitState, SemaphoreRegion))
            && Value(s, 24, 8, OffsetOf(c, c.L2TCMInitState, L2TCMRegion))
            && Value(s, 32, 8, OffsetOf(c, c.dmaRequests, RequestRegion))
            && Value(s, 40, 8, StartOf(c, TableRegion)) && Value(s, 48, 8, StartOf(c, HostTableRegion))
            && Value(s, 56, 8, OffsetOf(c, c.threads, ThreadRegion))
            && Value(s, 64, 8, OffsetOf(c, c.mappings, MappingRegion))
  {
    hide Value, EncHeader, File, StartOf, ImageSize, SlotValue, Lies, SizesAt, CountsAt, FlagsAt, MemoryAt;
    InHeader(c);
    SlotIs(c, NameSlot);
    SlotIs(c, SemaphoreSlot);
    SlotIs(c, L2TCMSlot);
    SlotIs(c, RequestSlot);
    SlotIs(c, TableSlot);
    SlotIs(c, HostTableSlot);
    SlotIs(c, ThreadSlot);
    SlotIs(c, MappingSlot);
  }

  /** The sizes and the counts in the header; a count that is too large for its field is cut. */
  lemma HeaderCounts(c: Content)
    ensures var s, v := File(c), c.scalars;
            && Value(s, 72, 8, v.staticSharedDDRSize) && Value(s, 80, 8, v.dynamicSharedDDRSize)
            && Value(s, 88, 8, v.staticConstantsSize) && Value(s, 96, 8, v.dynamicConstantsSize)
            && Value(s, 104, 8, v.exitDoorbellOffset) && Value(s, 112, 4, v.l2CachedDDRSize)
            && Value(s, 116, 4, |c.L2TCMInitState| % 0x1_0000_0000) && Value(s, 120, 2, v.execContextMajorVersion)
            && Value(s, 122, 2, v.numNSPs) && Value(s, 124, 2, |c.semaphoreInitState| % 0x1_0000)
            && Value(s, 126, 2, |c.dmaRequests| % 0x1_0000) && Value(s, 128, 2, |c.threads| % 0x1_0000)
            && Value(s, 130, 2, |c.mappings| % 0x1_0000)
  {
    hide Value, EncHeader, File, StartOf, SlotValue, TablesAt, FlagsAt, MemoryAt;
    InHeader(c);
  }

  lemma HeaderFlags(c: Content)
    ensures var s, v := File(c), c.scalars;
            && Value(s, 132, 1, v.hwVersionMajor) && Value(s, 133, 1, v.hwVersionMinor)
            && Value(s, 134, 1, v.staticSharedDDRECCEnabled) && Value(s, 135, 1, v.dynamicSharedDDRECCEnabled)
            && Value(s, 136, 1, v.staticConstantsECCEnabled) && Value(s, 137, 1, v.dynamicConstantsECCEnabled)
            && Value(s, 138, 1, v.singleVTCMPage) && Value(s, 139, 1, v.hasHvxFP) && Value(s, 140, 1, v.hasHmxFP)
            && Value(s, 144, 4, v.VTCMSize) && Value(s, 148, 4, v.L2TCMSize) && Value(s, 152, 8, v.networkHeapSize)
  {
    hide Value, EncHeader, File, StartOf, SlotValue, TablesAt, SizesAt, CountsAt;
    InHeader(c);
  }

  /** Request `i`. */
  lemma RequestBytes(c: Content, i: nat)
    requires WellFormed(c) && i < |c.dmaRequests|
    ensures var s, r, at := File(c), c.dmaRequests[i], StartOf(c, RequestRegion) + i * 48;
            && Value(s, at, 8, OffsetOf(c, r.semaphoreOps, SemaphoreOpsOf(i)))
            && Value(s, at + 8, 8, OffsetOf(c, r.doorbellOps, DoorbellOpsOf(i)))
            && Value(s, at + 16, 8, r.hostOffset) && Value(s, at + 24, 8, r.devOffset) && Value(s, at + 32, 4, r.size)
            && Value(s, at + 36, 2, r.num) && Value(s, at + 38, 2, r.mcId)
            && Value(s, at + 40, 1, |r.semaphoreOps| % 0x100) && Value(s, at + 41, 1, |r.doorbellOps| % 0x100)
            && Value(s, at + 42, 1, r.devAddrSpace) && Value(s, at + 43, 1, r.inOut) && Value(s, at + 44, 2, r.portId)
  {
    hide Value, EncRequest, File, StartOf, SlotValue, Lies, Lawful, EncAll, ImageSize;
    CodecsAreLawful();
    SlotIs(c, SemaphoreOpsSlot(i));
    SlotIs(c, DoorbellOpsSlot(i));
    var xs := Requests(c, 0, 0);
    InRegion(c, RequestRegion);
    InArray(REQUESTS, xs, File(c), StartOf(c, RequestRegion), i);
    ValueIn(EncRequest(xs[i]), File(c), StartOf(c, RequestRegion) + i * 48);
    RequestFieldsAt(xs[i]);
  }

  lemma SemaphoreOpBytes(c: Content, i: nat, j: nat)
    requires i < |c.dmaRequests| && j < |c.dmaRequests[i].semaphoreOps|
    ensures var s, o, at := File(c), c.dmaRequests[i].semaphoreOps[j], StartOf(c, SemaphoreOpsOf(i)) + j * 8;
            && Value(s, at, 2, o.semNum) && Value(s, at + 2, 2, o.semValue) && Value(s, at + 4, 1, o.semOp)
            && Value(s, at + 5, 1, o.preOrPost) && Value(s, at + 6, 1, o.inSyncFence)
            && Value(s, at + 7, 1, o.outSyncFence)
  {
    hide Value, EncSemaphoreOp, File, StartOf, SlotValue, Lies, Lawful, EncAll, ImageSize;
    CodecsAreLawful();
    var xs := c.dmaRequests[i].semaphoreOps;
    InRegion(c, SemaphoreOpsOf(i));
    InArray(SEMAPHORE_OPS, xs, File(c), StartOf(c, SemaphoreOpsOf(i)), j);
    ValueIn(EncSemaphoreOp(xs[j]), File(c), StartOf(c, SemaphoreOpsOf(i)) + j * 8);
    SemaphoreOpFieldsAt(xs[j]);
  }

  lemma DoorbellOpBytes(c: Content, i: nat, j: nat)
    requires i < |c.dmaRequests| && j < |c.dmaRequests[i].doorbellOps|
    ensures var s, o, at := File(c), c.dmaRequests[i].doorbellOps[j], StartOf(c, DoorbellOpsOf(i)) + j * 16;
            && Value(s, at, 8, o.offset) && Value(s, at + 8, 4, o.data) && Value(s, at + 12, 2, o.mcId)
            && Value(s, at + 14, 1, o.size)
  {
    hide Value, EncDoorbellOp, File, StartOf, SlotValue, Lies, Lawful, EncAll, ImageSize;
    CodecsAreLawful();
    var xs := c.dmaRequests[i].doorbellOps;
    InRegion(c, DoorbellOpsOf(i));
    InArray(DOORBELL_OPS, xs, File(c), StartOf(c, DoorbellOpsOf(i)), j);
    ValueIn(EncDoorbellOp(xs[j]), File(c), StartOf(c, DoorbellOpsOf(i)) + j * 16);
    DoorbellOpFieldsAt(xs[j]);
  }

  /** The table of a core, and its entries. */
  lemma TableBytes(c: Content, core: nat)
    requires WellFormed(c) && core < |c.nspTables|
    ensures var s, at := File(c), StartOf(c, TableRegion) + core * 16;
            && Value(s, at, 8, StartOf(c, EntriesOf(core))) && Value(s, at + 8, 2, |c.nspTables[core]| % 0x1_0000)
  {
    hide Value, EncTable, File, StartOf, SlotValue, Lies, Lawful, EncAll, ImageSize;
    CodecsAreLawful();
    SlotIs(c, EntriesSlot(core));
    var xs := NspTables(c, 0, 0);
    InRegion(c, TableRegion);
    InArray(TABLES, xs, File(c), StartOf(c, TableRegion), core);
    ValueIn(EncTable(xs[core]), File(c), StartOf(c, TableRegion) + core * 16);
    TableFieldsAt(xs[core]);
  }

  lemma NspEntryBytes(c: Content, core: nat, j: nat)
    requires core < |c.nspTables| && j < |c.nspTables[core]|
    ensures var s, e, at := File(c), c.nspTables[core][j], StartOf(c, EntriesOf(core)) + j * 24;
            && Value(s, at, 8, e.baseAddrOffset) && Value(s, at + 8, 4, e.mask) && Value(s, at + 12, 4, e.size)
            && Value(s, at + 16, 1, e.addrSpace) && Value(s, at + 17, 1, e.dyn)
  {
    hide Value, EncNspEntry, File, StartOf, SlotValue, Lies, Lawful, EncAll, ImageSize;
    CodecsAreLawful();
    var xs := c.nspTables[core];
    InRegion(c, EntriesOf(core));
    InArray(NSP_ENTRIES, xs, File(c), StartOf(c, EntriesOf(core)), j);
    ValueIn(EncNspEntry(xs[j]), File(c), StartOf(c, EntriesOf(core)) + j * 24);
    NspEntryFieldsAt(xs[j]);
  }

  /** The host's table, and its entries. */
  lemma HostTableBytes(c: Content)
    requires WellFormed(c)
    ensures var s, at := File(c), StartOf(c, HostTableRegion);
            && Value(s, at, 8, StartOf(c, HostEntryRegion)) && Value(s, at + 8, 2, |c.hostTable| % 0x1_0000)
  {
    hide Value, EncTable, File, StartOf, SlotValue, Lies, ImageSize;
    SlotIs(c, HostEntriesSlot);
    var t := HostTableOf(c, 0, 0);
    InRegion(c, HostTableRegion);
    ValueIn(EncTable(t), File(c), StartOf(c, HostTableRegion));
    TableFieldsAt(t);
  }

  lemma HostEntryBytes(c: Content, j: nat)
    requires j < |c.hostTable|
    ensures var s, at := File(c), StartOf(c, HostEntryRegion) + j * 8;
            Value(s, at, 4, c.hostTable[j].mask) && Value(s, at + 4, 4, c.hostTable[j].size)
  {
    hide Value, EncHostEntry, File, StartOf, SlotValue, Lies, Lawful, EncAll, ImageSize;
    CodecsAreLawful();
    var xs := c.hostTable;
    InRegion(c, HostEntryRegion);
    InArray(HOST_ENTRIES, xs, File(c), StartOf(c, HostEntryRegion), j);
    ValueIn(EncHostEntry(xs[j]), File(c), StartOf(c, HostEntryRegion) + j * 8);
    HostEntryFieldsAt(xs[j]);
  }

  lemma ThreadBytes(c: Content, j: nat)
    requires j < |c.threads|
    ensures var s, at := File(c), StartOf(c, ThreadRegion) + j * 16;
            Value(s, at, 8, c.threads[j].entryPoint) && Value(s, at + 8, 1, c.threads[j].typeMask)
  {
    hide Value, EncThread, File, StartOf, SlotValue, Lies, Lawful, EncAll, ImageSize;
    CodecsAreLawful();
    var xs := c.threads;
    InRegion(c, ThreadRegion);
    InArray(THREADS, xs, File(c), StartOf(c, ThreadRegion), j);
    ValueIn(EncThread(xs[j]), File(c), StartOf(c, ThreadRegion) + j * 16);
    ThreadFieldsAt(xs[j]);
  }

  lemma MappingBytes(c: Content, j: nat)
    requires j < |c.mappings|
    ensures var s, m, at := File(c), c.mappings[j], StartOf(c, MappingRegion) + j * 16;
            Value(s, at, 8, m.baseOffset) && Value(s, at + 8, 4, m.coreMask) && Value(s, at + 12, 4, m.size)
  {
    hide Value, EncMapping, File, StartOf, SlotValue, Lies, Lawful, EncAll, ImageSize;
    CodecsAreLawful();
    var xs := c.mappings;
    InRegion(c, MappingRegion);
    InArray(MAPPINGS, xs, File(c), StartOf(c, MappingRegion), j);
    ValueIn(EncMapping(xs[j]), File(c), StartOf(c, MappingRegion) + j * 16);
    MappingFieldsAt(xs[j]);
  }

  /** The states, one word and one byte after the other, and the name with its NUL. */
  lemma SemaphoreBytes(c: Content, j: nat)
    requires j < |c.semaphoreInitState|
    ensures Value(File(c), StartOf(c, SemaphoreRegion) + j * 4, 4, c.semaphoreInitState[j])
  {
    hide Value, Put4, File, StartOf, Lies, Lawful, EncAll;
    CodecsAreLawful();
    var xs := c.semaphoreInitState;
    InRegion(c, SemaphoreRegion);
    InArray(WORDS, xs, File(c), StartOf(c, SemaphoreRegion), j);
    ValueIn(EncWord(xs[j]), File(c), StartOf(c, SemaphoreRegion) + j * 4);
    var s := Field4(xs[j], []);
  }

  lemma PlainBytes(c: Content)
    ensures var s, at := File(c), StartOf(c, L2TCMRegion);
            at + |c.L2TCMInitState| <= |s| && s[at..at + |c.L2TCMInitState|] == c.L2TCMInitState
    ensures var s, at := File(c), StartOf(c, NameRegion);
            at + |c.name| < |s| && s[at..at + |c.name|] == c.name && s[at + |c.name|] == 0
  {
    hide File, StartOf;
    InRegion(c, L2TCMRegion);
    InRegion(c, NameRegion);
    var s, at, n := File(c), StartOf(c, NameRegion), |c.name|;
    var stored := s[at..at + n + 1];
    assert stored == c.name + [0];
    assert s[at..at + n] == stored[..n] && s[at + n] == stored[n];
  }
}
