/**
 The records of the binary metadata image: their field offsets, sizes and little-endian encoding, and arrays of
 them.
 */
module MetadataFormat {
  import opened ByteCodec
  import opened RecordArrays

  // ------------------------------------------------------------------------------------------------
  // Records
  // ------------------------------------------------------------------------------------------------

  datatype SemaphoreOp = SemaphoreOp(
    semNum: U16, semValue: U16, semOp: U8, preOrPost: U8, inSyncFence: U8, outSyncFence: U8)

  datatype DoorbellOp = DoorbellOp(offset: U64, data: U32, mcId: U16, size: U8)

  /** A DMA request without its operations: where they are stored and how many there are. */
  datatype RequestRecord = RequestRecord(
    semaphoreOps: U64, doorbellOps: U64, hostOffset: U64, devOffset: U64, size: U32, num: U16, mcId: U16,
    numSemaphoreOps: U8, numDoorbellOps: U8, devAddrSpace: U8, inOut: U8, portId: U16)

  datatype NspEntry = NspEntry(baseAddrOffset: U64, mask: U32, size: U32, addrSpace: U8, dyn: U8)

  /** An NSP or host multicast table: where its entries are stored and how many there are. */
  datatype TableRecord = TableRecord(entries: U64, numEntries: U16)

  datatype HostEntry = HostEntry(mask: U32, size: U32)

  datatype ThreadDescriptor = ThreadDescriptor(entryPoint: U64, typeMask: U8)

  datatype ConstantMapping = ConstantMapping(baseOffset: U64, coreMask: U32, size: U32)

  /** The header's plain values. */
  datatype Scalars = Scalars(
    staticSharedDDRSize: U64, dynamicSharedDDRSize: U64, staticConstantsSize: U64, dynamicConstantsSize: U64,
    exitDoorbellOffset: U64, l2CachedDDRSize: U32, execContextMajorVersion: U16,
    numNSPs: U16, hwVersionMajor: U8, hwVersionMinor: U8,
    staticSharedDDRECCEnabled: U8, dynamicSharedDDRECCEnabled: U8,
    staticConstantsECCEnabled: U8, dynamicConstantsECCEnabled: U8,
    singleVTCMPage: U8, hasHvxFP: U8, hasHmxFP: U8,
    VTCMSize: U32, L2TCMSize: U32, networkHeapSize: U64)

  /** The eight offset/pointer unions of the header, in declaration order. */
  datatype Tables = Tables(
    networkName: U64, semaphoreInitState: U64, L2TCMInitState: U64, dmaRequests: U64,
    nspMulticastTables: U64, hostMulticastTable: U64, threadDescriptors: U64, constantMappings: U64)

  datatype Counts = Counts(
    L2TCMInitSize: U32, numSemaphores: U16, numDMARequests: U16, numThreadDescriptors: U16,
    numConstantMappings: U16)

  datatype Header = Header(versionMajor: U16, versionMinor: U16, tables: Tables, counts: Counts, scalars: Scalars)

  // ------------------------------------------------------------------------------------------------
  // Encodings: fields in declaration order, little-endian, with explicit padding
  // ------------------------------------------------------------------------------------------------

  function EncSemaphoreOp(r: SemaphoreOp): (s: seq<Byte>)
    ensures |s| == 8
  {
    Put2(r.semNum, Put2(r.semValue, Put1(r.semOp, Put1(r.preOrPost, Put1(r.inSyncFence, Put1(r.outSyncFence,
    []))))))
  }

  function DecSemaphoreOp(s: seq<Byte>): SemaphoreOp {
    var f0 := Next2(s);
    var f1 := Next2(f0.1);
    var f2 := Next1(f1.1);
    var f3 := Next1(f2.1);
    var f4 := Next1(f3.1);
    var f5 := Next1(f4.1);
    SemaphoreOp(f0.0, f1.0, f2.0, f3.0, f4.0, f5.0)
  }

  function EncDoorbellOp(r: DoorbellOp): (s: seq<Byte>)
    ensures |s| == 16
  {
    Put8(r.offset, Put4(r.data, Put2(r.mcId, Put1(r.size, LE(0, 1)))))
  }

  function DecDoorbellOp(s: seq<Byte>): DoorbellOp {
    var f0 := Next8(s);
    var f1 := Next4(f0.1);
    var f2 := Next2(f1.1);
    var f3 := Next1(f2.1);
    DoorbellOp(f0.0, f1.0, f2.0, f3.0)
  }

  /** The fields of a request behind its two pointers. */
  function RequestTail(r: RequestRecord): (s: seq<Byte>)
    ensures |s| == 32
  {
    Put8(r.hostOffset, Put8(r.devOffset, Put4(r.size, Put2(r.num, Put2(r.mcId, Put1(r.numSemaphoreOps,
    Put1(r.numDoorbellOps, Put1(r.devAddrSpace, Put1(r.inOut, Put2(r.portId, LE(0, 2)))))))))))
  }

  function EncRequest(r: RequestRecord): (s: seq<Byte>)
    ensures |s| == 48
  {
    Put8(r.semaphoreOps, Put8(r.doorbellOps, RequestTail(r)))
  }

  function DecRequest(s: seq<Byte>): RequestRecord {
    var f0 := Next8(s);
    var f1 := Next8(f0.1);
    var f2 := Next8(f1.1);
    var f3 := Next8(f2.1);
    var f4 := Next4(f3.1);
    var f5 := Next2(f4.1);
    var f6 := Next2(f5.1);
    var f7 := Next1(f6.1);
    var f8 := Next1(f7.1);
    var f9 := Next1(f8.1);
    var f10 := Next1(f9.1);
    var f11 := Next2(f10.1);
    RequestRecord(f0.0, f1.0, f2.0, f3.0, f4.0, f5.0, f6.0, f7.0, f8.0, f9.0, f10.0, f11.0)
  }

  function EncNspEntry(r: NspEntry): (s: seq<Byte>)
    ensures |s| == 24
  {
    Put8(r.baseAddrOffset, Put4(r.mask, Put4(r.size, Put1(r.addrSpace, Put1(r.dyn, LE(0, 6))))))
  }

  function DecNspEntry(s: seq<Byte>): NspEntry {
    var f0 := Next8(s);
    var f1 := Next4(f0.1);
    var f2 := Next4(f1.1);
    var f3 := Next1(f2.1);
    var f4 := Next1(f3.1);
    NspEntry(f0.0, f1.0, f2.0, f3.0, f4.0)
  }

  function EncTable(r: TableRecord): (s: seq<Byte>)
    ensures |s| == 16
  {
    Put8(r.entries, Put2(r.numEntries, LE(0, 6)))
  }

  function DecTable(s: seq<Byte>): TableRecord {
    var f0 := Next8(s);
    var f1 := Next2(f0.1);
    TableRecord(f0.0, f1.0)
  }

  function EncHostEntry(r: HostEntry): (s: seq<Byte>)
    ensures |s| == 8
  {
    Put4(r.mask, Put4(r.size, []))
  }

  function DecHostEntry(s: seq<Byte>): HostEntry {
    var f0 := Next4(s);
    var f1 := Next4(f0.1);
    HostEntry(f0.0, f1.0)
  }

  function EncThread(r: ThreadDescriptor): (s: seq<Byte>)
    ensures |s| == 16
  {
    Put8(r.entryPoint, Put1(r.typeMask, LE(0, 7)))
  }

  function DecThread(s: seq<Byte>): ThreadDescriptor {
    var f0 := Next8(s);
    var f1 := Next1(f0.1);
    ThreadDescriptor(f0.0, f1.0)
  }

  function EncMapping(r: ConstantMapping): (s: seq<Byte>)
    ensures |s| == 16
  {
    Put8(r.baseOffset, Put4(r.coreMask, Put4(r.size, [])))
  }

  function DecMapping(s: seq<Byte>): ConstantMapping {
    var f0 := Next8(s);
    var f1 := Next4(f0.1);
    var f2 := Next4(f1.1);
    ConstantMapping(f0.0, f1.0, f2.0)
  }

  function EncWord(v: U32): (s: seq<Byte>)
    ensures |s| == 4
  {
    Put4(v, [])
  }

  function DecWord(s: seq<Byte>): U32 { Next4(s).0 }

  function EncPointer(v: U64): (s: seq<Byte>)
    ensures |s| == 8
  {
    Put8(v, [])
  }

  function DecPointer(s: seq<Byte>): U64 { Next8(s).0 }

  function EncByte(v: U8): (s: seq<Byte>)
    ensures |s| == 1
  {
    Put1(v, [])
  }

  function DecByte(s: seq<Byte>): U8 { Next1(s).0 }

  const BYTES: Codec<U8> := Codec(1, EncByte, DecByte)
  const WORDS: Codec<U32> := Codec(4, EncWord, DecWord)
  const POINTERS: Codec<U64> := Codec(8, EncPointer, DecPointer)
  const SEMAPHORE_OPS: Codec<SemaphoreOp> := Codec(8, EncSemaphoreOp, DecSemaphoreOp)
  const DOORBELL_OPS: Codec<DoorbellOp> := Codec(16, EncDoorbellOp, DecDoorbellOp)
  const REQUESTS: Codec<RequestRecord> := Codec(48, EncRequest, DecRequest)
  const NSP_ENTRIES: Codec<NspEntry> := Codec(24, EncNspEntry, DecNspEntry)
  const TABLES: Codec<TableRecord> := Codec(16, EncTable, DecTable)
  const HOST_ENTRIES: Codec<HostEntry> := Codec(8, EncHostEntry, DecHostEntry)
  const THREADS: Codec<ThreadDescriptor> := Codec(16, EncThread, DecThread)
  const MAPPINGS: Codec<ConstantMapping> := Codec(16, EncMapping, DecMapping)

  /** Every record type can be read back. */
  lemma CodecsAreLawful()
    ensures Lawful(BYTES) && Lawful(WORDS) && Lawful(POINTERS) && Lawful(SEMAPHORE_OPS) && Lawful(DOORBELL_OPS)
    ensures Lawful(REQUESTS) && Lawful(NSP_ENTRIES) && Lawful(TABLES) && Lawful(HOST_ENTRIES) && Lawful(THREADS)
    ensures Lawful(MAPPINGS)
  {
    hide Put1, Put2, Put4, Put8, Next1, Next2, Next4, Next8;
  }

  // ------------------------------------------------------------------------------------------------
  // Header
  // ------------------------------------------------------------------------------------------------

  const HEADER_SIZE := 160

  function PointerSeq(t: Tables): (s: seq<U64>)
    ensures |s| == 8
  {
    [t.networkName, t.semaphoreInitState, t.L2TCMInitState, t.dmaRequests, t.nspMulticastTables,
     t.hostMulticastTable, t.threadDescriptors, t.constantMappings]
  }

  function PutVersion(h: Header, rest: seq<Byte>): (s: seq<Byte>)
    ensures |s| == 8 + |rest|
  {
    Put2(h.versionMajor, Put2(h.versionMinor, LE(0, 4) + rest))
  }

  function PutSizes(h: Header, rest: seq<Byte>): (s: seq<Byte>)
    ensures |s| == 48 + |rest|
  {
    Put8(h.scalars.staticSharedDDRSize, Put8(h.scalars.dynamicSharedDDRSize, Put8(h.scalars.staticConstantsSize,
    Put8(h.scalars.dynamicConstantsSize, Put8(h.scalars.exitDoorbellOffset, Put4(h.scalars.l2CachedDDRSize,
    Put4(h.counts.L2TCMInitSize, rest)))))))
  }

  function PutCounts(h: Header, rest: seq<Byte>): (s: seq<Byte>)
    ensures |s| == 12 + |rest|
  {
    Put2(h.scalars.execContextMajorVersion, Put2(h.scalars.numNSPs, Put2(h.counts.numSemaphores,
    Put2(h.counts.numDMARequests, Put2(h.counts.numThreadDescriptors, Put2(h.counts.numConstantMappings, rest))))))
  }

  function PutFlags(h: Header, rest: seq<Byte>): (s: seq<Byte>)
    ensures |s| == 12 + |rest|
  {
    Put1(h.scalars.hwVersionMajor, Put1(h.scalars.hwVersionMinor, Put1(h.scalars.staticSharedDDRECCEnabled,
    Put1(h.scalars.dynamicSharedDDRECCEnabled, Put1(h.scalars.staticConstantsECCEnabled,
    Put1(h.scalars.dynamicConstantsECCEnabled, Put1(h.scalars.singleVTCMPage, Put1(h.scalars.hasHvxFP,
    Put1(h.scalars.hasHmxFP, LE(0, 3) + rest)))))))))
  }

  function PutMemory(h: Header, rest: seq<Byte>): (s: seq<Byte>)
    ensures |s| == 16 + |rest|
  {
    Put4(h.scalars.VTCMSize, Put4(h.scalars.L2TCMSize, Put8(h.scalars.networkHeapSize, rest)))
  }

  function EncHeaderRest(h: Header): (s: seq<Byte>)
    ensures |s| == 88
  {
    PutSizes(h, PutCounts(h, PutFlags(h, PutMemory(h, []))))
  }

  function EncPointers(t: Tables): (s: seq<Byte>)
    ensures |s| == 64
  {
    CodecsAreLawful();
    EncAllSize(POINTERS, PointerSeq(t));
    EncAll(POINTERS, PointerSeq(t))
  }

  function EncHeader(h: Header): (s: seq<Byte>)
    ensures |s| == HEADER_SIZE
  {
    PutVersion(h, EncPointers(h.tables) + EncHeaderRest(h))
  }

  function DecHeader(s: seq<Byte>): Header
    requires |s| >= HEADER_SIZE
  {
    var major := Next2(s);
    var minor := Next2(major.1);
    var p := ReadAll(POINTERS, s[8..], 8);
    var staticSharedDDRSize := Next8(s[72..]);
    var dynamicSharedDDRSize := Next8(staticSharedDDRSize.1);
    var staticConstantsSize := Next8(dynamicSharedDDRSize.1);
    var dynamicConstantsSize := Next8(staticConstantsSize.1);
    var exitDoorbellOffset := Next8(dynamicConstantsSize.1);
    var l2CachedDDRSize := Next4(exitDoorbellOffset.1);
    var L2TCMInitSize := Next4(l2CachedDDRSize.1);
    var execContextMajorVersion := Next2(L2TCMInitSize.1);
    var numNSPs := Next2(execContextMajorVersion.1);
    var numSemaphores := Next2(numNSPs.1);
    var numDMARequests := Next2(numSemaphores.1);
    var numThreadDescriptors := Next2(numDMARequests.1);
    var numConstantMappings := Next2(numThreadDescriptors.1);
    var hwVersionMajor := Next1(numConstantMappings.1);
    var hwVersionMinor := Next1(hwVersionMajor.1);
    var staticSharedDDRECCEnabled := Next1(hwVersionMinor.1);
    var dynamicSharedDDRECCEnabled := Next1(staticSharedDDRECCEnabled.1);
    var staticConstantsECCEnabled := Next1(dynamicSharedDDRECCEnabled.1);
    var dynamicConstantsECCEnabled := Next1(staticConstantsECCEnabled.1);
    var singleVTCMPage := Next1(dynamicConstantsECCEnabled.1);
    var hasHvxFP := Next1(singleVTCMPage.1);
    var hasHmxFP := Next1(hasHvxFP.1);
    var padding := Next(hasHmxFP.1, 3);
    var VTCMSize := Next4(padding.1);
    var L2TCMSize := Next4(VTCMSize.1);
    var networkHeapSize := Next8(L2TCMSize.1);
    Header(major.0, minor.0, Tables(p[0], p[1], p[2], p[3], p[4], p[5], p[6], p[7]),
      Counts(L2TCMInitSize.0, numSemaphores.0, numDMARequests.0, numThreadDescriptors.0, numConstantMappings.0),
      Scalars(staticSharedDDRSize.0, dynamicSharedDDRSize.0, staticConstantsSize.0, dynamicConstantsSize.0,
              exitDoorbellOffset.0, l2CachedDDRSize.0, execContextMajorVersion.0, numNSPs.0, hwVersionMajor.0,
              hwVersionMinor.0, staticSharedDDRECCEnabled.0, dynamicSharedDDRECCEnabled.0, staticConstantsECCEnabled.0,
              dynamicConstantsECCEnabled.0, singleVTCMPage.0, hasHvxFP.0, hasHmxFP.0, VTCMSize.0, L2TCMSize.0,
              networkHeapSize.0))
  }

  lemma HeaderRoundTrip(h: Header)
    ensures DecHeader(EncHeader(h)) == h
  {
    var s, rest := EncHeader(h), EncHeaderRest(h);
    HeaderParts(h);
    CodecsAreLawful();
    ReadAllOfEncAll(POINTERS, PointerSeq(h.tables), rest, 8);
    Pow256Values();
    NextOfLE(0, 3, PutMemory(h, []));
    hide EncHeader, Put1, Put2, Put4, Put8, Next, Next1, Next2, Next4, Next8, ReadAll, LE, Get, EncAll;
  }

  /** Version, pointers and the rest start at offsets 0, 8 and 72. */
  lemma HeaderParts(h: Header)
    ensures var s := EncHeader(h);
            && s[8..] == EncAll(POINTERS, PointerSeq(h.tables)) + EncHeaderRest(h) && s[72..] == EncHeaderRest(h)
            && Next2(s).0 == h.versionMajor && Next2(Next2(s).1).0 == h.versionMinor
  {
    hide EncHeaderRest, EncAll, LE, Next1, Next2, Next4, Next8, PointerSeq;
    HeaderIs(h);
  }

  lemma HeaderIs(h: Header)
    ensures |PutVersion(h, [])| == 8
    ensures EncHeader(h) == PutVersion(h, []) + EncPointers(h.tables) + EncHeaderRest(h)
  {
    hide EncHeaderRest, EncAll, LE, Next1, Next2, Next4, Next8, PointerSeq;
    var tail := EncPointers(h.tables) + EncHeaderRest(h);
    assert PutVersion(h, tail) == PutVersion(h, []) + tail;
  }
}
