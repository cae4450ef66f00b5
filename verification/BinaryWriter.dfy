/** The binary metadata writer as an object: builder methods and `Finalize`. */
module BinaryWriter {
  import opened ByteCodec
  import opened ChunkLayout
  import opened RecordArrays
  import opened MetadataFormat
  import opened MetadataImage
  import opened MetadataDraft
  import opened MetadataWriter
  import opened WriterPlan
  import opened FlatCommutes

  const NO_POINTERS := Tables(0, 0, 0, 0, 0, 0, 0, 0)

  class AICMetadataWriter {
    // The header under construction.
    var versionMajor: U16
    var versionMinor: U16
    var tables: Tables
    var counts: Counts
    var scalars: Scalars
    var isFinal: bool
    var metadataBuffer: seq<Byte>
    var networkName: seq<Byte>
    var L2TCMInitState: seq<Byte>
    var semaphoreInitState: seq<U32>
    var DMARequests: seq<StagedRequest>
    var NSPMulticastTables: seq<seq<NspEntry>>
    var HostMulticastTable: seq<HostEntry>
    var constMappingCores: bv32
    var ThreadDescriptors: seq<ThreadDescriptor>
    var ConstantMappings: seq<ConstantMapping>

    predicate Valid()
      reads this
    {
      |NSPMulticastTables| == MAX_CORES && counts.numSemaphores == |semaphoreInitState|
      && tables == NO_POINTERS
    }

    function Collected(): Content
      reads this
    {
      Content(versionMajor, versionMinor, scalars, networkName, semaphoreInitState,
              L2TCMInitState, AllLogical(DMARequests), NSPMulticastTables, HostMulticastTable, ThreadDescriptors,
              ConstantMappings)
    }

    /** Everything collected so far. */
    function Drafted(): Draft
      reads this
    {
      Draft(Collected(), constMappingCores)
    }

    constructor (hwVersionMajor: U16, hwVersionMinor: U16)
      ensures Valid() && !isFinal && metadataBuffer == []
      ensures Drafted() == Started(hwVersionMajor % 0x100, hwVersionMinor % 0x100)
    {
      versionMajor, versionMinor, tables, counts := 1, 0, NO_POINTERS, Counts(0, 0, 0, 0, 0);
      scalars := InitialScalars(hwVersionMajor % 0x100, hwVersionMinor % 0x100);
      isFinal, metadataBuffer, networkName, L2TCMInitState, semaphoreInitState := false, [], [], [], [];
      DMARequests, NSPMulticastTables, HostMulticastTable := [], NoTables(MAX_CORES), [];
      constMappingCores, ThreadDescriptors, ConstantMappings := 0, [], [];
    }

    // ----------------------------------------------------------------------------------------------
    // Builders
    // ----------------------------------------------------------------------------------------------

    method SetNumNSPs(numNSPs: U16)
      requires Valid()
      modifies `scalars
      ensures Valid() && Drafted() == Apply(old(Drafted()), BuildCall.SetNumNSPs(numNSPs))
    {
      scalars := scalars.(numNSPs := numNSPs);
    }

    method SetScalars(s: Scalars)
      requires Valid() && Admitted(Drafted(), BuildCall.SetScalars(s))
      modifies `scalars
      ensures Valid() && Drafted() == Apply(old(Drafted()), BuildCall.SetScalars(s))
    {
      scalars := s;
    }

    method SetNetworkName(name: seq<Byte>)
      requires Valid()
      modifies `networkName
      ensures Valid() && Drafted() == Apply(old(Drafted()), BuildCall.SetNetworkName(name))
    {
      networkName := name;
    }

    method SetNumSemaphores(numSemaphores: U16)
      requires Valid()
      modifies `counts, `semaphoreInitState
      ensures Valid() && Drafted() == Apply(old(Drafted()), BuildCall.SetNumSemaphores(numSemaphores))
    {
      counts := counts.(numSemaphores := numSemaphores);
      semaphoreInitState := Resized(semaphoreInitState, numSemaphores, 0);
    }

    method InitSemaphore(semId: U32, val: U32)
      requires Valid() && Admitted(Drafted(), BuildCall.InitSemaphore(semId, val))
      modifies `semaphoreInitState
      ensures Valid() && Drafted() == Apply(old(Drafted()), BuildCall.InitSemaphore(semId, val))
    {
      semaphoreInitState := semaphoreInitState[semId := val];
    }

    method InitL2TCMResize(newSize: U32)
      requires Valid()
      modifies `L2TCMInitState
      ensures Valid() && Drafted() == Apply(old(Drafted()), BuildCall.InitL2TCMResize(newSize))
    {
      L2TCMInitState := Resized(L2TCMInitState, newSize, 0);
    }

    method InitL2TCMByte(offset: U64, byte: U8)
      requires Valid() && Admitted(Drafted(), BuildCall.InitL2TCMByte(offset, byte))
      modifies `L2TCMInitState
      ensures Valid() && Drafted() == Apply(old(Drafted()), BuildCall.InitL2TCMByte(offset, byte))
    {
      L2TCMInitState := L2TCMInitState[offset := byte];
    }

    method InitL2TCMWord(offset: U64, word: U32)
      requires Valid() && Admitted(Drafted(), BuildCall.InitL2TCMWord(offset, word))
      modifies `L2TCMInitState
      ensures Valid() && Drafted() == Apply(old(Drafted()), BuildCall.InitL2TCMWord(offset, word))
    {
      ghost var was := L2TCMInitState;
      var rest: nat := word;
      for i := 0 to 4
        invariant LE(word, 4)[i..] == LE(rest, 4 - i)
        invariant L2TCMInitState == Patch(was, offset, LE(word, 4)[..i])
        modifies `L2TCMInitState
      {
        LowByte(rest, 4 - i);
        PatchNext(was, offset, LE(word, 4), i);
        L2TCMInitState := L2TCMInitState[offset + i := rest % 256];
        rest := rest / 256;
      }
      assert LE(word, 4)[..4] == LE(word, 4);
    }

    /**
     Appends an operation to the caller's vector. Operations that are all built here make up a request that
     `AddDMARequest` admits.
     */
    static method AddSemaphoreOp(ops: seq<SemaphoreOp>, semOp: U8, semNum: U16, semValue: U16, preOrPost: U8,
                                 inSyncFence: U8, outSyncFence: U8)
      returns (r: seq<SemaphoreOp>)
      requires semOp <= 6
      ensures ValidSemaphoreOps(r) <==> ValidSemaphoreOps(ops)
      ensures |r| == |ops| + 1 && r[..|ops|] == ops
      ensures var o := r[|ops|];
              && o.semOp == semOp && o.semNum == semNum && o.semValue == semValue && o.preOrPost == preOrPost
              && o.inSyncFence == inSyncFence && o.outSyncFence == outSyncFence
    {
      var o := SemaphoreOp(semNum, semValue, semOp, preOrPost, inSyncFence, outSyncFence);
      assert forall p :: p in ops + [o] <==> p in ops || p == o;
      return ops + [o];
    }

    static method AddDoorbellOp(ops: seq<DoorbellOp>, sizeEnum: U8, mcId: U16, offset: U64, data: U32)
      returns (r: seq<DoorbellOp>)
      requires sizeEnum <= 2
      ensures ValidDoorbellOps(r) <==> ValidDoorbellOps(ops)
      ensures |r| == |ops| + 1 && r[..|ops|] == ops
      ensures var o := r[|ops|]; o.size == sizeEnum && o.mcId == mcId && o.offset == offset && o.data == data
    {
      var o := DoorbellOp(offset, data, mcId, sizeEnum);
      assert forall p :: p in ops + [o] <==> p in ops || p == o;
      return ops + [o];
    }

    method AddDMARequest(r: DmaRequest)
      requires Valid() && Admitted(Drafted(), BuildCall.AddDMARequest(r))
      modifies `DMARequests
      ensures Valid() && Drafted() == Apply(old(Drafted()), BuildCall.AddDMARequest(r))
    {
      var request := RequestRecord(0, 0, r.hostOffset, r.devOffset, r.size, r.num, r.mcId, |r.semaphoreOps| % 0x100,
                                   |r.doorbellOps| % 0x100, r.devAddrSpace, r.inOut, r.portId);
      ghost var was := DMARequests;
      DMARequests := DMARequests + [StagedRequest(request, r.semaphoreOps, r.doorbellOps)];
      assert AllLogical(DMARequests) == AllLogical(was) + [r];
    }

    method AddNSPMulticastEntry(core: nat, entry: NspEntry)
      requires Valid() && Admitted(Drafted(), BuildCall.AddNSPMulticastEntry(core, entry))
      modifies `NSPMulticastTables
      ensures Valid() && Drafted() == Apply(old(Drafted()), BuildCall.AddNSPMulticastEntry(core, entry))
    {
      NSPMulticastTables := NSPMulticastTables[core := NSPMulticastTables[core] + [entry]];
    }

    method AddHostMulticastEntry(entry: HostEntry)
      requires Valid()
      modifies `HostMulticastTable
      ensures Valid() && Drafted() == Apply(old(Drafted()), BuildCall.AddHostMulticastEntry(entry))
    {
      HostMulticastTable := HostMulticastTable + [entry];
    }

    method AddThreadDescriptor(entryPoint: U64, hasHMX: bool, hasHVX: bool)
      requires Valid() && Admitted(Drafted(), BuildCall.AddThreadDescriptor(entryPoint, hasHMX, hasHVX))
      modifies `ThreadDescriptors
      ensures Valid() && Drafted() == Apply(old(Drafted()), BuildCall.AddThreadDescriptor(entryPoint, hasHMX, hasHVX))
    {
      var typeMask := 0;
      if hasHMX { typeMask := typeMask + 1; }
      if hasHVX { typeMask := typeMask + 2; }
      ThreadDescriptors := ThreadDescriptors + [ThreadDescriptor(entryPoint, typeMask)];
    }

    method AddConstantMapping(mapping: ConstantMapping)
      requires Valid() && Admitted(Drafted(), BuildCall.AddConstantMapping(mapping))
      modifies `ConstantMappings, `constMappingCores
      ensures Valid() && Drafted() == Apply(old(Drafted()), BuildCall.AddConstantMapping(mapping))
    {
      hide Admitted;
      constMappingCores := constMappingCores | (mapping.coreMask as bv32);
      ConstantMappings := ConstantMappings + [mapping];
    }

    // ----------------------------------------------------------------------------------------------
    // Serialization
    // ----------------------------------------------------------------------------------------------

    /** Appends bytes at the next aligned offset. */
    method Write(bytes: seq<Byte>, align: nat) returns (offset: U32)
      requires align >= 1 && AlignTo(|metadataBuffer|, align) + |bytes| < 0x8000_0000
      modifies `metadataBuffer
      ensures metadataBuffer == Place(old(metadataBuffer), Chunk(align, bytes))
      ensures offset == AlignTo(|old(metadataBuffer)|, align)
    {
      AlignToSpec(|metadataBuffer|, align);
      offset := AlignTo(|metadataBuffer|, align);
      metadataBuffer := metadataBuffer + Padding(|metadataBuffer|, align);
      metadataBuffer := metadataBuffer + bytes;
    }

    /** Overwrites bytes at an aligned offset; the asserted bound is strict. */
    method Overwrite(bytes: seq<Byte>, align: nat, offset: U32)
      requires offset + |bytes| < |metadataBuffer| && align >= 1 && AlignTo(offset, align) == offset
      modifies `metadataBuffer
      ensures metadataBuffer == Patch(old(metadataBuffer), offset, bytes)
    {
      metadataBuffer := metadataBuffer[..offset] + bytes + metadataBuffer[offset + |bytes|..];
    }

    // The chunks `cs` are the image being written; its first `k` chunks are in the buffer.
    ghost predicate Buffered(cs: seq<Chunk>, k: nat)
      reads `metadataBuffer
    {
      k <= |cs| && Aligned(cs) && |Lay(cs)| < 0x8000_0000 && metadataBuffer == Lay(cs[..k])
    }

    /** Writes the next chunk. */
    method WriteChunk(bytes: seq<Byte>, align: nat, ghost cs: seq<Chunk>, ghost k: nat) returns (offset: U32)
      requires Buffered(cs, k) && k < |cs| && cs[k] == Chunk(align, bytes)
      modifies `metadataBuffer
      ensures Buffered(cs, k + 1) && offset == Offset(cs, k)
    {
      NextChunk(cs, k);
      hide Lay, Offset, Place;
      offset := Write(bytes, align);
    }

    /** Writes the next chunk unless it is empty; the offset to record is 0 then. */
    method WriteUnlessEmpty(bytes: seq<Byte>, align: nat, ghost cs: seq<Chunk>, ghost k: nat) returns (offset: U32)
      requires Buffered(cs, k) && k < |cs| && cs[k] == ArrayChunk(align, bytes)
      modifies `metadataBuffer
      ensures Buffered(cs, k + 1) && offset == OffsetOrZero(cs, k)
    {
      if bytes != [] {
        offset := WriteChunk(bytes, align, cs, k);
      } else {
        NextChunk(cs, k);
        EmptyChunk(Lay(cs[..k]));
        offset := 0;
      }
    }

    /** Writes record `i` of the array that chunk `k` holds. */
    method WriteRecord<T(!new)>(codec: Codec<T>, x: T, align: nat, ghost xs: seq<T>, ghost i: nat,
                                ghost cs: seq<Chunk>, ghost k: nat)
      returns (offset: U32)
      requires Aligned(cs) && |Lay(cs)| < 0x8000_0000 && k < |cs| && Lawful(codec) && align >= 1
      requires codec.size % align == 0 && i < |xs| && xs[i] == x && cs[k] == ArrayChunk(align, EncAll(codec, xs))
      requires metadataBuffer == Place(Lay(cs[..k]), ArrayChunk(align, EncAll(codec, xs[..i])))
      modifies `metadataBuffer
      ensures metadataBuffer == Place(Lay(cs[..k]), ArrayChunk(align, EncAll(codec, xs[..i + 1])))
      ensures i == 0 ==> offset == OffsetOrZero(cs, k)
    {
      NextRecord(codec, align, xs, i, cs, k);
      hide Lay, EncAll, Place, ArrayChunk, OffsetOrZero;
      offset := Write(codec.enc(x), align);
    }

    method FiniSemaphoreState(ghost cs: seq<Chunk>, ghost k: nat)
      requires Buffered(cs, k) && k < |cs| && cs[k] == ArrayChunk(4, EncAll(WORDS, semaphoreInitState))
      modifies `tables, `metadataBuffer
      ensures Buffered(cs, k + 1) && tables.semaphoreInitState == OffsetOrZero(cs, k)
      ensures tables == old(tables).(semaphoreInitState := tables.semaphoreInitState)
    {
      hide Lay, EncAll;
      var offset := WriteUnlessEmpty(EncAll(WORDS, semaphoreInitState), 4, cs, k);
      tables := tables.(semaphoreInitState := offset);
    }

    method FiniL2TCMState(ghost cs: seq<Chunk>, ghost k: nat)
      requires Buffered(cs, k) && k < |cs| && cs[k] == ArrayChunk(1, L2TCMInitState)
      modifies `tables, `counts, `metadataBuffer
      ensures Buffered(cs, k + 1) && tables.L2TCMInitState == OffsetOrZero(cs, k)
      ensures tables == old(tables).(L2TCMInitState := tables.L2TCMInitState)
      ensures counts == old(counts).(L2TCMInitSize := |L2TCMInitState| % 0x1_0000_0000)
    {
      hide Lay;
      counts := counts.(L2TCMInitSize := |L2TCMInitState| % 0x1_0000_0000);
      var offset := WriteUnlessEmpty(L2TCMInitState, 1, cs, k);
      tables := tables.(L2TCMInitState := offset);
    }

    /** The operations of request `i`: semaphores, then doorbells. */
    method WriteOperationsOf(i: nat, ghost cs: seq<Chunk>, ghost k: nat)
      requires i < |DMARequests| && Buffered(cs, k) && k + 1 < |cs|
      requires cs[k] == ArrayChunk(2, EncAll(SEMAPHORE_OPS, DMARequests[i].semaphoreOps))
      requires cs[k + 1] == ArrayChunk(8, EncAll(DOORBELL_OPS, DMARequests[i].doorbellOps))
      modifies `DMARequests, `metadataBuffer
      ensures Buffered(cs, k + 2) && |DMARequests| == |old(DMARequests)|
      ensures DMARequests == old(DMARequests)[i := DMARequests[i]]
      ensures Logical(DMARequests[i]) == Logical(old(DMARequests)[i])
      ensures DMARequests[i].request == RecordFor(cs, k, Logical(old(DMARequests)[i]))
    {
      hide Lay, EncAll, OffsetOrZero, ArrayChunk;
      var r := DMARequests[i];
      var semaphoreOps := WriteUnlessEmpty(EncAll(SEMAPHORE_OPS, r.semaphoreOps), 2, cs, k);
      var doorbellOps := WriteUnlessEmpty(EncAll(DOORBELL_OPS, r.doorbellOps), 8, cs, k + 1);
      DMARequests := DMARequests[i := r.(request := r.request.(
        numSemaphoreOps := |r.semaphoreOps| % 0x100, semaphoreOps := semaphoreOps,
        numDoorbellOps := |r.doorbellOps| % 0x100, doorbellOps := doorbellOps))];
    }

    /** The operations of every request; the records `xs` are completed with their offsets. */
    method WriteOperations(ghost xs: seq<RequestRecord>, ghost cs: seq<Chunk>, ghost k: nat)
      requires Buffered(cs, k) && RequestsPlanned(xs, cs, k, DMARequests)
      modifies `DMARequests, `metadataBuffer
      ensures Buffered(cs, k + 2 * |xs|) && |DMARequests| == |xs|
      ensures forall j :: 0 <= j < |xs| ==> DMARequests[j].request == xs[j]
    {
      ghost var was := DMARequests;
      hide RecordFor, Logical, Lay, EncAll, ArrayChunk, OffsetOrZero, Buffered;
      for i := 0 to |DMARequests|
        invariant |DMARequests| == |was| && Buffered(cs, k + 2 * i)
        invariant forall j :: 0 <= j < i ==> DMARequests[j].request == xs[j]
        invariant forall j :: i <= j < |was| ==> DMARequests[j] == was[j]
      {
        WriteOperationsOf(i, cs, k + 2 * i);
      }
    }

    /** The request records, written one at a time. */
    method WriteRequests(ghost xs: seq<RequestRecord>, ghost cs: seq<Chunk>, ghost k: nat) returns (first: U32)
      requires Buffered(cs, k) && k < |cs| && cs[k] == ArrayChunk(8, EncAll(REQUESTS, xs)) && |xs| == |DMARequests|
      requires forall j :: 0 <= j < |xs| ==> DMARequests[j].request == xs[j]
      modifies `metadataBuffer
      ensures Buffered(cs, k + 1) && first == OffsetOrZero(cs, k)
    {
      hide Lay, EncAll, OffsetOrZero, ArrayChunk, EncRequest;
      first := 0;
      NoRecords(REQUESTS, 8, xs, cs, k);
      CodecsAreLawful();
      for i := 0 to |DMARequests|
        invariant metadataBuffer == Place(Lay(cs[..k]), ArrayChunk(8, EncAll(REQUESTS, xs[..i])))
        invariant first == if i == 0 then 0 else OffsetOrZero(cs, k)
      {
        var offset := WriteRecord(REQUESTS, DMARequests[i].request, 8, xs, i, cs, k);
        if i == 0 { first := offset; }
      }
      assert xs[..|xs|] == xs;
      NextChunk(cs, k);
    }

    method FiniDMARequests(ghost xs: seq<RequestRecord>, ghost cs: seq<Chunk>, ghost k: nat)
      requires Buffered(cs, k) && RequestsPlanned(xs, cs, k, DMARequests)
      requires k + 2 * |xs| < |cs| && cs[k + 2 * |xs|] == ArrayChunk(8, EncAll(REQUESTS, xs))
      modifies `DMARequests, `tables, `counts, `metadataBuffer
      ensures Buffered(cs, k + 2 * |xs| + 1) && tables.dmaRequests == OffsetOrZero(cs, k + 2 * |xs|)
      ensures tables == old(tables).(dmaRequests := tables.dmaRequests)
      ensures counts == old(counts).(numDMARequests := |xs| % 0x1_0000)
    {
      hide Lay, EncAll, OffsetOrZero, ArrayChunk;
      WriteOperations(xs, cs, k);
      counts := counts.(numDMARequests := |DMARequests| % 0x1_0000);
      var first := WriteRequests(xs, cs, k + 2 * |xs|);
      tables := tables.(dmaRequests := first);
    }

    /** The entries of every core's table. */
    method WriteEntries(ghost ts: seq<TableRecord>, ghost cs: seq<Chunk>, ghost k: nat)
      returns (tableOffsets: seq<U32>)
      requires |NSPMulticastTables| >= scalars.numNSPs && Buffered(cs, k)
      requires TablesPlanned(ts, cs, k, NSPMulticastTables[..scalars.numNSPs])
      modifies `metadataBuffer
      ensures Buffered(cs, k + |ts|) && |tableOffsets| == |ts|
      ensures forall j :: 0 <= j < |ts| ==> tableOffsets[j] == ts[j].entries
    {
      tableOffsets := [];
      hide Lay, EncAll, Offset, Buffered;
      for i := 0 to scalars.numNSPs
        invariant Buffered(cs, k + i) && |tableOffsets| == i
        invariant forall j :: 0 <= j < i ==> tableOffsets[j] == ts[j].entries
      {
        assert NSPMulticastTables[..scalars.numNSPs][i] == NSPMulticastTables[i];
        var offset := WriteChunk(EncAll(NSP_ENTRIES, NSPMulticastTables[i]), 8, cs, k + i);
        tableOffsets := tableOffsets + [offset];
      }
    }

    /** The cores' tables, written one at a time. */
    method WriteTables(tableOffsets: seq<U32>, ghost ts: seq<TableRecord>, ghost cs: seq<Chunk>, ghost k: nat)
      returns (first: U32)
      requires |NSPMulticastTables| >= scalars.numNSPs == |ts| == |tableOffsets| && Buffered(cs, k) && k < |cs|
      requires cs[k] == ArrayChunk(8, EncAll(TABLES, ts))
      requires forall j :: 0 <= j < |ts| ==> ts[j] == TableRecord(tableOffsets[j], |NSPMulticastTables[j]| % 0x1_0000)
      modifies `metadataBuffer
      ensures Buffered(cs, k + 1) && first == OffsetOrZero(cs, k)
    {
      hide Lay, EncAll, OffsetOrZero, ArrayChunk, EncTable;
      first := 0;
      NoRecords(TABLES, 8, ts, cs, k);
      CodecsAreLawful();
      for i := 0 to scalars.numNSPs
        invariant metadataBuffer == Place(Lay(cs[..k]), ArrayChunk(8, EncAll(TABLES, ts[..i])))
        invariant first == if i == 0 then 0 else OffsetOrZero(cs, k)
      {
        var table := TableRecord(tableOffsets[i], |NSPMulticastTables[i]| % 0x1_0000);
        var offset := WriteRecord(TABLES, table, 8, ts, i, cs, k);
        if i == 0 { first := offset; }
      }
      assert ts[..|ts|] == ts;
      NextChunk(cs, k);
    }

    method FiniMulticastTables(ghost ts: seq<TableRecord>, ghost host: TableRecord, ghost cs: seq<Chunk>, ghost k: nat)
      requires |NSPMulticastTables| >= scalars.numNSPs == |ts| && Buffered(cs, k)
      requires TablesPlanned(ts, cs, k, NSPMulticastTables[..scalars.numNSPs])
      requires k + |ts| < |cs| && cs[k + |ts|] == ArrayChunk(8, EncAll(TABLES, ts))
      requires HostPlanned(host, cs, k + |ts| + 1, HostMulticastTable)
      modifies `tables, `metadataBuffer
      ensures Buffered(cs, k + |ts| + 3)
      ensures tables.nspMulticastTables == OffsetOrZero(cs, k + |ts|)
      ensures tables.hostMulticastTable == Offset(cs, k + |ts| + 2)
      ensures tables == old(tables).(nspMulticastTables := tables.nspMulticastTables,
                                     hostMulticastTable := tables.hostMulticastTable)
    {
      hide Lay, EncAll, Offset, OffsetOrZero, ArrayChunk, EncTable;
      var tableOffsets := WriteEntries(ts, cs, k);
      forall j | 0 <= j < |ts| ensures ts[j] == TableRecord(tableOffsets[j], |NSPMulticastTables[j]| % 0x1_0000) {
        assert NSPMulticastTables[..scalars.numNSPs][j] == NSPMulticastTables[j];
      }
      var first := WriteTables(tableOffsets, ts, cs, k + |ts|);
      var entries := WriteChunk(EncAll(HOST_ENTRIES, HostMulticastTable), 4, cs, k + |ts| + 1);
      var hostTable := TableRecord(entries, |HostMulticastTable| % 0x1_0000);
      var offset := WriteChunk(EncTable(hostTable), 8, cs, k + |ts| + 2);
      tables := tables.(nspMulticastTables := first, hostMulticastTable := offset);
    }

    method FiniThreadDescriptors(ghost cs: seq<Chunk>, ghost k: nat)
      requires Buffered(cs, k) && k < |cs| && cs[k] == ArrayChunk(8, EncAll(THREADS, ThreadDescriptors))
      requires tables.threadDescriptors == 0
      modifies `tables, `counts, `metadataBuffer
      ensures Buffered(cs, k + 1) && tables.threadDescriptors == OffsetOrZero(cs, k)
      ensures tables == old(tables).(threadDescriptors := tables.threadDescriptors)
      ensures counts == old(counts).(numThreadDescriptors := |ThreadDescriptors| % 0x1_0000)
    {
      SkipChunk(THREADS, 8, ThreadDescriptors, cs, k);
      hide Lay, EncAll, OffsetOrZero, ArrayChunk;
      counts := counts.(numThreadDescriptors := |ThreadDescriptors| % 0x1_0000);
      if |ThreadDescriptors| != 0 {
        var offset := WriteUnlessEmpty(EncAll(THREADS, ThreadDescriptors), 8, cs, k);
        tables := tables.(threadDescriptors := offset);
      }
    }

    method FiniConstantMappings(ghost cs: seq<Chunk>, ghost k: nat)
      requires Buffered(cs, k) && k < |cs| && cs[k] == ArrayChunk(8, EncAll(MAPPINGS, ConstantMappings))
      modifies `tables, `counts, `metadataBuffer, `constMappingCores
      ensures Buffered(cs, k + 1) && tables.constantMappings == OffsetOrZero(cs, k)
      ensures tables == old(tables).(constantMappings := tables.constantMappings)
      ensures counts == old(counts).(numConstantMappings := |ConstantMappings| % 0x1_0000)
      ensures constMappingCores == 0
    {
      hide Lay, EncAll, OffsetOrZero, ArrayChunk;
      counts := counts.(numConstantMappings := |ConstantMappings| % 0x1_0000);
      var offset := WriteUnlessEmpty(EncAll(MAPPINGS, ConstantMappings), 8, cs, k);
      tables := tables.(constantMappings := offset);
      constMappingCores := 0;
    }

    function Metadata(): Header
      reads this
    {
      Header(versionMajor, versionMinor, tables, counts, scalars)
    }

    /** The collections hold content `c`. */
    ghost predicate Holds(c: Content)
      reads this
    {
      && c.versionMajor == versionMajor && c.versionMinor == versionMinor && c.scalars == scalars
      && c.name == networkName && c.semaphoreInitState == semaphoreInitState && c.L2TCMInitState == L2TCMInitState
      && c.dmaRequests == AllLogical(DMARequests) && c.hostTable == HostMulticastTable
      && c.threads == ThreadDescriptors && c.mappings == ConstantMappings
      && |NSPMulticastTables| >= scalars.numNSPs && c.nspTables == NSPMulticastTables[..scalars.numNSPs]
    }

    /** Every region behind the name, in order. */
    method WriteRegions(ghost c: Content, ghost cs: seq<Chunk>)
      requires Holds(c) && tables.threadDescriptors == 0 && Planned(cs, c, DMARequests) && Buffered(cs, 2)
      modifies `tables, `counts, `DMARequests, `metadataBuffer, `constMappingCores
      ensures Buffered(cs, |cs|)
      ensures counts == CountsOf(c).(numSemaphores := old(counts).numSemaphores)
      ensures TablesOf(cs, c, tables) && tables.networkName == old(tables).networkName
    {
      ghost var n := |DMARequests|;
      hide Lay, EncAll, Offset, OffsetOrZero, ArrayChunk, RequestsPlanned, TablesPlanned, HostPlanned, AllLogical,
        Requests, NspTables, HostTableOf, EncTable;
      FiniSemaphoreState(cs, 2);
      FiniL2TCMState(cs, 3);
      FiniDMARequests(Requests(c, 0, 0), cs, 4);
      FiniMulticastTables(NspTables(c, 0, 0), HostTableOf(c, 0, 0), cs, 5 + 2 * n);
      FiniThreadDescriptors(cs, 8 + 2 * n + |c.nspTables|);
      FiniConstantMappings(cs, 9 + 2 * n + |c.nspTables|);
    }

    /** Everything behind the provisional header; the header is complete then. */
    method WriteBody(ghost c: Content, ghost cs: seq<Chunk>)
      requires Holds(c) && tables == NO_POINTERS && counts.numSemaphores == |c.semaphoreInitState|
      requires Planned(cs, c, DMARequests) && Behind(cs, c) && Buffered(cs, 1)
      modifies `tables, `counts, `DMARequests, `metadataBuffer, `constMappingCores
      ensures metadataBuffer == Lay(cs) && Metadata() == HeaderOf(c, 0, 0)
    {
      hide Planned, Lay, Offset, TablesOf, Behind, HeaderOf;
      NameChunk(cs, c, DMARequests);
      var name := WriteChunk(networkName + [0], 1, cs, 1);
      tables := tables.(networkName := name);
      WriteRegions(c, cs);
      assert cs[..|cs|] == cs;
      PointersAreComplete(cs, c, tables);
      HeaderIsImageHeader(c, Metadata());
    }

    /** An empty name becomes "unnamed". */
    method NameNetwork(ghost c: Content)
      requires |NSPMulticastTables| >= scalars.numNSPs && c == Finished(Drafted())
      modifies `networkName
      ensures Holds(c)
    {
      if networkName == [] { networkName := UNNAMED; }
    }

    /** The header as it is before anything else is written. */
    method WriteProvisionalHeader(ghost cs: seq<Chunk>)
      requires metadataBuffer == [] && BeginsWith(cs, EncHeader(Metadata())) && |Lay(cs)| < 0x8000_0000
      modifies `metadataBuffer
      ensures Buffered(cs, 1)
    {
      hide EncHeader, Lay;
      AlignToSpec(0, 8);
      var _ := Write(EncHeader(Metadata()), 8);
    }

    /** Patches the header. */
    method PatchHeader()
      requires |metadataBuffer| > HEADER_SIZE
      modifies `metadataBuffer
      ensures metadataBuffer == Patch(old(metadataBuffer), 0, EncHeader(Metadata()))
    {
      hide EncHeader;
      AlignToSpec(0, 8);
      Overwrite(EncHeader(Metadata()), 8, 0);
    }

    /** Serializes content `c` into the empty buffer. */
    method Serialize(ghost c: Content)
      requires Valid() && metadataBuffer == [] && scalars.numNSPs > 0 && |NSPMulticastTables| >= scalars.numNSPs
      requires c == Finished(Drafted()) && ImageSize(c) < 0x8000_0000
      modifies this
      ensures metadataBuffer == Image(c, 0, 0)
    {
      hide Unpatched, Image, ImageSize, EncHeader, Planned, Behind, Lay, HeaderOf, AllLogical, Finished, Place, Patch;
      FinishedIs(Drafted());
      ghost var h0 := Metadata();
      ghost var cs := Unpatched(c, h0);
      StartIsPlanned(c, h0, DMARequests);
      WriteProvisionalHeader(cs);
      NameNetwork(c);
      WriteBody(c, cs);
      EndIsImage(c, h0);
      PatchHeader();
    }

    /** Serializes the collected content. */
    method Finalize()
      requires Valid() && !isFinal && metadataBuffer == [] && CanFinalize(Drafted())
      modifies this
      ensures isFinal && metadataBuffer == Image(Finished(old(Drafted())), 0, 0)
    {
      hide Image, ImageSize, AllLogical;
      Serialize(Finished(Drafted()));
      isFinal := true;
    }
  }

  lemma FinishedIs(d: Draft)
    requires 0 < d.content.scalars.numNSPs <= |d.content.nspTables|
    ensures Finished(d).dmaRequests == d.content.dmaRequests && Finished(d).nspTables != []
    ensures Finished(d).semaphoreInitState == d.content.semaphoreInitState
  {
  }
}
