/** Where the fields of the metadata records lie, and which bytes they hold. */
module MetadataOffsets {
  import opened ByteCodec
  import opened FieldOffsets
  import opened RecordArrays
  import opened MetadataFormat

  lemma SemaphoreOpFieldsAt(r: SemaphoreOp)
    ensures var s := EncSemaphoreOp(r);
            && |s| == 8
            && Value(s, 0, 2, r.semNum) && Value(s, 2, 2, r.semValue) && Value(s, 4, 1, r.semOp)
            && Value(s, 5, 1, r.preOrPost) && Value(s, 6, 1, r.inSyncFence) && Value(s, 7, 1, r.outSyncFence)
  {
    hide Value, Put1, Put2, Put4, Put8, LE;
    var s := Field1(r.outSyncFence, []);
    s := Field1(r.inSyncFence, s);
    s := Field1(r.preOrPost, s);
    s := Field1(r.semOp, s);
    s := Field2(r.semValue, s);
    s := Field2(r.semNum, s);
  }

  lemma DoorbellOpFieldsAt(r: DoorbellOp)
    ensures var s := EncDoorbellOp(r);
            && |s| == 16
            && Value(s, 0, 8, r.offset) && Value(s, 8, 4, r.data) && Value(s, 12, 2, r.mcId)
            && Value(s, 14, 1, r.size) && Value(s, 15, 1, 0)
  {
    hide Value, Put1, Put2, Put4, Put8, LE;
    assert LE(0, 1) + [] == LE(0, 1);
    var s := Zeros(1, []);
    s := Field1(r.size, s);
    s := Field2(r.mcId, s);
    s := Field4(r.data, s);
    s := Field8(r.offset, s);
  }

  lemma RequestFieldsAt(r: RequestRecord)
    ensures var s := EncRequest(r);
            && |s| == 48
            && Value(s, 0, 8, r.semaphoreOps) && Value(s, 8, 8, r.doorbellOps) && Value(s, 16, 8, r.hostOffset)
            && Value(s, 24, 8, r.devOffset) && Value(s, 32, 4, r.size) && Value(s, 36, 2, r.num)
            && Value(s, 38, 2, r.mcId) && Value(s, 40, 1, r.numSemaphoreOps) && Value(s, 41, 1, r.numDoorbellOps)
            && Value(s, 42, 1, r.devAddrSpace) && Value(s, 43, 1, r.inOut) && Value(s, 44, 2, r.portId)
            && Value(s, 46, 2, 0)
  {
    hide Value, Put1, Put2, Put4, Put8, LE;
    assert LE(0, 2) + [] == LE(0, 2);
    var s := Zeros(2, []);
    s := Field2(r.portId, s);
    s := Field1(r.inOut, s);
    s := Field1(r.devAddrSpace, s);
    s := Field1(r.numDoorbellOps, s);
    s := Field1(r.numSemaphoreOps, s);
    s := Field2(r.mcId, s);
    s := Field2(r.num, s);
    s := Field4(r.size, s);
    s := Field8(r.devOffset, s);
    s := Field8(r.hostOffset, s);
    s := Field8(r.doorbellOps, s);
    s := Field8(r.semaphoreOps, s);
  }

  lemma NspEntryFieldsAt(r: NspEntry)
    ensures var s := EncNspEntry(r);
            && |s| == 24
            && Value(s, 0, 8, r.baseAddrOffset) && Value(s, 8, 4, r.mask) && Value(s, 12, 4, r.size)
            && Value(s, 16, 1, r.addrSpace) && Value(s, 17, 1, r.dyn) && Value(s, 18, 6, 0)
  {
    hide Value, Put1, Put2, Put4, Put8, LE;
    assert LE(0, 6) + [] == LE(0, 6);
    var s := Zeros(6, []);
    s := Field1(r.dyn, s);
    s := Field1(r.addrSpace, s);
    s := Field4(r.size, s);
    s := Field4(r.mask, s);
    s := Field8(r.baseAddrOffset, s);
  }

  lemma TableFieldsAt(r: TableRecord)
    ensures var s := EncTable(r);
            && |s| == 16
            && Value(s, 0, 8, r.entries) && Value(s, 8, 2, r.numEntries) && Value(s, 10, 6, 0)
  {
    hide Value, Put1, Put2, Put4, Put8, LE;
    assert LE(0, 6) + [] == LE(0, 6);
    var s := Zeros(6, []);
    s := Field2(r.numEntries, s);
    s := Field8(r.entries, s);
  }

  lemma HostEntryFieldsAt(r: HostEntry)
    ensures var s := EncHostEntry(r);
            && |s| == 8
            && Value(s, 0, 4, r.mask) && Value(s, 4, 4, r.size)
  {
    hide Value, Put1, Put2, Put4, Put8, LE;
    var s := Field4(r.size, []);
    s := Field4(r.mask, s);
  }

  lemma ThreadFieldsAt(r: ThreadDescriptor)
    ensures var s := EncThread(r);
            && |s| == 16
            && Value(s, 0, 8, r.entryPoint) && Value(s, 8, 1, r.typeMask) && Value(s, 9, 7, 0)
  {
    hide Value, Put1, Put2, Put4, Put8, LE;
    assert LE(0, 7) + [] == LE(0, 7);
    var s := Zeros(7, []);
    s := Field1(r.typeMask, s);
    s := Field8(r.entryPoint, s);
  }

  lemma MappingFieldsAt(r: ConstantMapping)
    ensures var s := EncMapping(r);
            && |s| == 16
            && Value(s, 0, 8, r.baseOffset) && Value(s, 8, 4, r.coreMask) && Value(s, 12, 4, r.size)
  {
    hide Value, Put1, Put2, Put4, Put8, LE;
    var s := Field4(r.size, []);
    s := Field4(r.coreMask, s);
    s := Field8(r.baseOffset, s);
  }

  // ------------------------------------------------------------------------------------------------
  // The header
  // ------------------------------------------------------------------------------------------------

  lemma {:induction false} PointersAt(ps: seq<U64>)
    ensures |EncAll(POINTERS, ps)| == 8 * |ps|
    ensures forall i :: 0 <= i < |ps| ==> Value(EncAll(POINTERS, ps), 8 * i, 8, ps[i])
  {
    if ps != [] {
      PointersAt(ps[1..]);
      var tail := EncAll(POINTERS, ps[1..]);
      hide LE, Value;
      assert EncAll(POINTERS, ps) == Put8(ps[0], []) + tail == LE(ps[0], 8) + [] + tail == LE(ps[0], 8) + tail;
      Here(ps[0], 8, tail);
      Behind(LE(ps[0], 8), tail);
      forall i | 0 <= i < |ps| ensures Value(EncAll(POINTERS, ps), 8 * i, 8, ps[i]) {
        if i > 0 { assert Value(tail, 8 * (i - 1), 8, ps[1..][i - 1]); }
      }
    }
  }

  predicate SizesAt(s: seq<Byte>, at: nat, h: Header) {
    && Value(s, at, 8, h.scalars.staticSharedDDRSize) && Value(s, at + 8, 8, h.scalars.dynamicSharedDDRSize)
    && Value(s, at + 16, 8, h.scalars.staticConstantsSize) && Value(s, at + 24, 8, h.scalars.dynamicConstantsSize)
    && Value(s, at + 32, 8, h.scalars.exitDoorbellOffset) && Value(s, at + 40, 4, h.scalars.l2CachedDDRSize)
    && Value(s, at + 44, 4, h.counts.L2TCMInitSize)
  }

  predicate CountsAt(s: seq<Byte>, at: nat, h: Header) {
    && Value(s, at, 2, h.scalars.execContextMajorVersion) && Value(s, at + 2, 2, h.scalars.numNSPs)
    && Value(s, at + 4, 2, h.counts.numSemaphores) && Value(s, at + 6, 2, h.counts.numDMARequests)
    && Value(s, at + 8, 2, h.counts.numThreadDescriptors) && Value(s, at + 10, 2, h.counts.numConstantMappings)
  }

  predicate FlagsAt(s: seq<Byte>, at: nat, h: Header) {
    && Value(s, at, 1, h.scalars.hwVersionMajor) && Value(s, at + 1, 1, h.scalars.hwVersionMinor)
    && Value(s, at + 2, 1, h.scalars.staticSharedDDRECCEnabled)
    && Value(s, at + 3, 1, h.scalars.dynamicSharedDDRECCEnabled)
    && Value(s, at + 4, 1, h.scalars.staticConstantsECCEnabled)
    && Value(s, at + 5, 1, h.scalars.dynamicConstantsECCEnabled) && Value(s, at + 6, 1, h.scalars.singleVTCMPage)
    && Value(s, at + 7, 1, h.scalars.hasHvxFP) && Value(s, at + 8, 1, h.scalars.hasHmxFP) && Value(s, at + 9, 3, 0)
  }

  predicate MemoryAt(s: seq<Byte>, at: nat, h: Header) {
    && Value(s, at, 4, h.scalars.VTCMSize) && Value(s, at + 4, 4, h.scalars.L2TCMSize)
    && Value(s, at + 8, 8, h.scalars.networkHeapSize)
  }

  /** The fields that are written in front of others. */
  lemma SizesFields(h: Header, rest: seq<Byte>) returns (s: seq<Byte>)
    ensures s == PutSizes(h, rest) && SizesAt(s, 0, h)
    ensures forall at: nat, w: nat, x: nat :: Value(rest, at, w, x) ==> Value(s, 48 + at, w, x)
  {
    hide Value, Put1, Put2, Put4, Put8, LE;
    s := Field4(h.counts.L2TCMInitSize, rest);
    s := Field4(h.scalars.l2CachedDDRSize, s);
    s := Field8(h.scalars.exitDoorbellOffset, s);
    s := Field8(h.scalars.dynamicConstantsSize, s);
    s := Field8(h.scalars.staticConstantsSize, s);
    s := Field8(h.scalars.dynamicSharedDDRSize, s);
    s := Field8(h.scalars.staticSharedDDRSize, s);
  }

  lemma CountsFields(h: Header, rest: seq<Byte>) returns (s: seq<Byte>)
    ensures s == PutCounts(h, rest) && CountsAt(s, 0, h)
    ensures forall at: nat, w: nat, x: nat :: Value(rest, at, w, x) ==> Value(s, 12 + at, w, x)
  {
    hide Value, Put1, Put2, Put4, Put8, LE;
    s := Field2(h.counts.numConstantMappings, rest);
    s := Field2(h.counts.numThreadDescriptors, s);
    s := Field2(h.counts.numDMARequests, s);
    s := Field2(h.counts.numSemaphores, s);
    s := Field2(h.scalars.numNSPs, s);
    s := Field2(h.scalars.execContextMajorVersion, s);
  }

  lemma FlagsFields(h: Header, rest: seq<Byte>) returns (s: seq<Byte>)
    ensures s == PutFlags(h, rest) && FlagsAt(s, 0, h)
    ensures forall at: nat, w: nat, x: nat :: Value(rest, at, w, x) ==> Value(s, 12 + at, w, x)
  {
    hide Value, Put1, Put2, Put4, Put8, LE;
    s := Zeros(3, rest);
    s := Field1(h.scalars.hasHmxFP, s);
    s := Field1(h.scalars.hasHvxFP, s);
    s := Field1(h.scalars.singleVTCMPage, s);
    s := Field1(h.scalars.dynamicConstantsECCEnabled, s);
    s := Field1(h.scalars.staticConstantsECCEnabled, s);
    s := Field1(h.scalars.dynamicSharedDDRECCEnabled, s);
    s := Field1(h.scalars.staticSharedDDRECCEnabled, s);
    s := Field1(h.scalars.hwVersionMinor, s);
    s := Field1(h.scalars.hwVersionMajor, s);
  }

  lemma MemoryFields(h: Header, rest: seq<Byte>) returns (s: seq<Byte>)
    ensures s == PutMemory(h, rest) && MemoryAt(s, 0, h)
    ensures forall at: nat, w: nat, x: nat :: Value(rest, at, w, x) ==> Value(s, 16 + at, w, x)
  {
    hide Value, Put1, Put2, Put4, Put8, LE;
    s := Field8(h.scalars.networkHeapSize, rest);
    s := Field4(h.scalars.L2TCMSize, s);
    s := Field4(h.scalars.VTCMSize, s);
  }

  lemma TablesFields(t: Tables)
    ensures var s := EncPointers(t);
            && Value(s, 0, 8, t.networkName) && Value(s, 8, 8, t.semaphoreInitState)
            && Value(s, 16, 8, t.L2TCMInitState) && Value(s, 24, 8, t.dmaRequests)
            && Value(s, 32, 8, t.nspMulticastTables) && Value(s, 40, 8, t.hostMulticastTable)
            && Value(s, 48, 8, t.threadDescriptors) && Value(s, 56, 8, t.constantMappings)
  {
    hide Value, EncAll;
    var ps := PointerSeq(t);
    PointersAt(ps);
    assert ps[0] == t.networkName && ps[1] == t.semaphoreInitState;
    assert ps[2] == t.L2TCMInitState && ps[3] == t.dmaRequests;
    assert ps[4] == t.nspMulticastTables && ps[5] == t.hostMulticastTable;
    assert ps[6] == t.threadDescriptors && ps[7] == t.constantMappings;
  }

  predicate TablesAt(s: seq<Byte>, h: Header) {
    && Value(s, 0, 2, h.versionMajor) && Value(s, 2, 2, h.versionMinor) && Value(s, 4, 4, 0)
    && Value(s, 8, 8, h.tables.networkName) && Value(s, 16, 8, h.tables.semaphoreInitState)
    && Value(s, 24, 8, h.tables.L2TCMInitState) && Value(s, 32, 8, h.tables.dmaRequests)
    && Value(s, 40, 8, h.tables.nspMulticastTables) && Value(s, 48, 8, h.tables.hostMulticastTable)
    && Value(s, 56, 8, h.tables.threadDescriptors) && Value(s, 64, 8, h.tables.constantMappings)
  }

  /** The header's fields, one after the other. */
  lemma HeaderFieldsAt(h: Header)
    ensures |EncHeader(h)| == 160
    ensures TablesAt(EncHeader(h), h) && SizesAt(EncHeader(h), 72, h) && CountsAt(EncHeader(h), 120, h)
    ensures FlagsAt(EncHeader(h), 132, h) && MemoryAt(EncHeader(h), 144, h)
  {
    hide Value, Put2, LE, EncAll, PointerSeq, PutSizes, PutCounts, PutFlags, PutMemory;
    var s := MemoryFields(h, []);
    s := FlagsFields(h, s);
    s := CountsFields(h, s);
    s := SizesFields(h, s);
    TablesFields(h.tables);
    var ps := EncPointers(h.tables);
    Behind(ps, s);
    InFront(ps, s);
    s := Zeros(4, ps + s);
    s := Field2(h.versionMinor, s);
    s := Field2(h.versionMajor, s);
  }
}
