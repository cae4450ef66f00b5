/** The flat writer as an object: every builder fills the flat form directly. */
module FlatWriter {
  import opened ByteCodec
  import opened MetadataFormat
  import opened MetadataImage
  import opened FlatTranslation
  import opened MetadataDraft
  import opened FlatCommutes
  import R = MetadataReader

  class MetadataFlatbufferWriter {
    var metadata: Content
    var numSemaphores: U16
    var L2TCMInitSize: U32
    var constMappingCores: bv32

    /** Everything collected so far. */
    function Drafted(): FlatDraft
      reads this
    {
      FlatDraft(Flat(metadata, numSemaphores, L2TCMInitSize), constMappingCores)
    }

    /** A writer for the given versions; for those that the binary writer stamps it starts where that one does. */
    constructor (hwVersionMajor: U16, hwVersionMinor: U16, versionMajor: U16, versionMinor: U16,
                 execContextMajorVersion: U16, exitDoorbellOffset: U64)
      ensures var start := FlatStarted(hwVersionMajor % 0x100, hwVersionMinor % 0x100);
              var c := start.flat.content;
              Drafted() == start.(flat := start.flat.(content := c.(
                versionMajor := versionMajor, versionMinor := versionMinor,
                scalars := c.scalars.(execContextMajorVersion := execContextMajorVersion,
                                      exitDoorbellOffset := exitDoorbellOffset))))
      ensures versionMajor == R.MAJOR_VERSION && versionMinor == R.MINOR_VERSION
              && execContextMajorVersion == EXEC_CONTEXT_MAJOR_VERSION && exitDoorbellOffset == NO_DOORBELL ==>
                Drafted() == FlatStarted(hwVersionMajor % 0x100, hwVersionMinor % 0x100)
    {
      var scalars := InitialScalars(hwVersionMajor % 0x100, hwVersionMinor % 0x100);
      metadata := Content(versionMajor, versionMinor,
                          scalars.(execContextMajorVersion := execContextMajorVersion,
                                   exitDoorbellOffset := exitDoorbellOffset),
                          [], [], [], [], [], [], [], []);
      numSemaphores, L2TCMInitSize, constMappingCores := 0, 0, 0;
    }

    method SetNumNSPs(numNSPs: U16)
      modifies `metadata
      ensures Drafted() == FlatApply(old(Drafted()), BuildCall.SetNumNSPs(numNSPs))
    {
      ghost var was := metadata.nspTables;
      metadata := metadata.(scalars := metadata.scalars.(numNSPs := numNSPs));
      while |metadata.nspTables| < numNSPs
        invariant |was| <= |metadata.nspTables| <= if numNSPs > |was| then numNSPs else |was|
        invariant metadata == old(metadata).(scalars := metadata.scalars, nspTables := metadata.nspTables)
        invariant metadata.scalars == old(metadata).scalars.(numNSPs := numNSPs)
        invariant metadata.nspTables == was + NoTables(|metadata.nspTables| - |was|)
      {
        metadata := metadata.(nspTables := metadata.nspTables + [[]]);
      }
    }

    method SetScalars(s: Scalars)
      modifies `metadata
      ensures Drafted() == FlatApply(old(Drafted()), BuildCall.SetScalars(s))
    {
      metadata := metadata.(scalars := s);
    }

    method SetNetworkName(name: seq<Byte>)
      modifies `metadata
      ensures Drafted() == FlatApply(old(Drafted()), BuildCall.SetNetworkName(name))
    {
      metadata := metadata.(name := name);
    }

    method SetNumSemaphores(numSemaphores: U16)
      modifies `metadata, `numSemaphores
      ensures Drafted() == FlatApply(old(Drafted()), BuildCall.SetNumSemaphores(numSemaphores))
    {
      metadata := metadata.(semaphoreInitState := Resized(metadata.semaphoreInitState, numSemaphores, 0));
      this.numSemaphores := numSemaphores;
    }

    method InitSemaphore(semId: U32, val: U32)
      requires semId < |metadata.semaphoreInitState|
      modifies `metadata
      ensures Drafted() == FlatApply(old(Drafted()), BuildCall.InitSemaphore(semId, val))
    {
      metadata := metadata.(semaphoreInitState := metadata.semaphoreInitState[semId := val]);
    }

    method InitL2TCMResize(newSize: U32)
      modifies `metadata, `L2TCMInitSize
      ensures Drafted() == FlatApply(old(Drafted()), BuildCall.InitL2TCMResize(newSize))
    {
      metadata := metadata.(L2TCMInitState := Resized(metadata.L2TCMInitState, newSize, 0));
      L2TCMInitSize := newSize;
    }

    method InitL2TCMByte(offset: U64, byte: U8)
      requires offset < |metadata.L2TCMInitState|
      modifies `metadata
      ensures Drafted() == FlatApply(old(Drafted()), BuildCall.InitL2TCMByte(offset, byte))
    {
      metadata := metadata.(L2TCMInitState := metadata.L2TCMInitState[offset := byte]);
    }

    method InitL2TCMWord(offset: U64, word: U32)
      requires offset + 4 <= |metadata.L2TCMInitState|
      modifies `metadata
      ensures Drafted() == FlatApply(old(Drafted()), BuildCall.InitL2TCMWord(offset, word))
    {
      ghost var was := metadata.L2TCMInitState;
      var rest: nat := word;
      for i := 0 to 4
        invariant LE(word, 4)[i..] == LE(rest, 4 - i)
        invariant metadata == old(metadata).(L2TCMInitState := Patch(was, offset, LE(word, 4)[..i]))
      {
        LowByte(rest, 4 - i);
        PatchNext(was, offset, LE(word, 4), i);
        metadata := metadata.(L2TCMInitState := metadata.L2TCMInitState[offset + i := rest % 256]);
        rest := rest / 256;
      }
      assert LE(word, 4)[..4] == LE(word, 4);
    }

    /** The operations are copied one by one from the legacy vectors. */
    method AddDMARequest(r: DmaRequest)
      requires ValidRequest(r)
      modifies `metadata
      ensures Drafted() == FlatApply(old(Drafted()), BuildCall.AddDMARequest(r))
    {
      var semaphoreOps, doorbellOps := [], [];
      for i := 0 to |r.semaphoreOps|
        invariant semaphoreOps == r.semaphoreOps[..i]
      {
        semaphoreOps := semaphoreOps + [r.semaphoreOps[i]];
      }
      for i := 0 to |r.doorbellOps|
        invariant doorbellOps == r.doorbellOps[..i]
      {
        doorbellOps := doorbellOps + [r.doorbellOps[i]];
      }
      var request := DmaRequest(r.num, r.hostOffset, r.devAddrSpace, r.devOffset, r.size, r.inOut, r.portId, r.mcId,
                                semaphoreOps, doorbellOps);
      assert request == r;
      metadata := metadata.(dmaRequests := metadata.dmaRequests + [request]);
    }

    method AddNSPMulticastEntry(core: nat, entry: NspEntry)
      requires core < metadata.scalars.numNSPs && core < |metadata.nspTables|
      modifies `metadata
      ensures Drafted() == FlatApply(old(Drafted()), BuildCall.AddNSPMulticastEntry(core, entry))
    {
      metadata := metadata.(nspTables := metadata.nspTables[core := metadata.nspTables[core] + [entry]]);
    }

    method AddHostMulticastEntry(entry: HostEntry)
      modifies `metadata
      ensures Drafted() == FlatApply(old(Drafted()), BuildCall.AddHostMulticastEntry(entry))
    {
      metadata := metadata.(hostTable := metadata.hostTable + [entry]);
    }

    method AddThreadDescriptor(entryPoint: U64, hasHMX: bool, hasHVX: bool)
      requires entryPoint != 0
      modifies `metadata
      ensures Drafted() == FlatApply(old(Drafted()), BuildCall.AddThreadDescriptor(entryPoint, hasHMX, hasHVX))
    {
      var typeMask := 0;
      if hasHMX { typeMask := typeMask + 1; }
      if hasHVX { typeMask := typeMask + 2; }
      metadata := metadata.(threads := metadata.threads + [ThreadDescriptor(entryPoint, typeMask)]);
    }

    method AddConstantMapping(mapping: ConstantMapping)
      requires constMappingCores & (mapping.coreMask as bv32) == 0
      modifies `metadata, `constMappingCores
      ensures Drafted() == FlatApply(old(Drafted()), BuildCall.AddConstantMapping(mapping))
    {
      hide FlatApply, Build;
      MappingApplied(Drafted(), mapping);
      constMappingCores := constMappingCores | (mapping.coreMask as bv32);
      metadata := metadata.(mappings := metadata.mappings + [mapping]);
    }

    /** The flat form that is packed; an empty name becomes "unnamed" first. */
    method Finalize() returns (flat: Flat)
      requires metadata.scalars.numNSPs != 0 && metadata.scalars.VTCMSize != 0 && metadata.scalars.L2TCMSize != 0
      modifies `metadata
      ensures flat == FlatFinished(old(Drafted()))
    {
      if metadata.name == [] { metadata := metadata.(name := UNNAMED); }
      return Flat(metadata, numSemaphores, L2TCMInitSize);
    }
  }

  lemma MappingApplied(d: FlatDraft, mapping: ConstantMapping)
    ensures FlatApply(d, BuildCall.AddConstantMapping(mapping)) ==
            FlatDraft(d.flat.(content := d.flat.content.(mappings := d.flat.content.mappings + [mapping])),
                      d.cores | (mapping.coreMask as bv32))
  {
  }
}
