/** What a file holds in terms of the builder calls that made it, written out from the calls alone. */
module MetadataCalls {
  import opened ByteCodec
  import opened MetadataFormat
  import opened MetadataImage
  import opened MetadataReader
  import opened FlatTranslation
  import opened MetadataRoundTrip
  import opened MetadataDraft
  import opened FlatCommutes

  // ------------------------------------------------------------------------------------------------
  // The calls
  // ------------------------------------------------------------------------------------------------

  /** The requests that were added, in call order. */
  function RequestsOf(calls: seq<BuildCall>): seq<DmaRequest> {
    if calls == [] then []
    else
      var last := calls[|calls| - 1];
      RequestsOf(calls[..|calls| - 1]) + if last.AddDMARequest? then [last.request] else []
  }

  /** The entries that were added to one core's table, in call order. */
  function EntriesOf(calls: seq<BuildCall>, core: nat): seq<NspEntry> {
    if calls == [] then []
    else
      var last := calls[|calls| - 1];
      EntriesOf(calls[..|calls| - 1], core)
      + if last.AddNSPMulticastEntry? && last.core == core then [last.entry] else []
  }

  function HostEntriesOf(calls: seq<BuildCall>): seq<HostEntry> {
    if calls == [] then []
    else
      var last := calls[|calls| - 1];
      HostEntriesOf(calls[..|calls| - 1]) + if last.AddHostMulticastEntry? then [last.hostEntry] else []
  }

  /** A thread as it was added: its entry point, and whether it uses HMX and HVX. */
  datatype Thread = Thread(entryPoint: U64, hasHMX: bool, hasHVX: bool)

  function ThreadsOf(calls: seq<BuildCall>): seq<Thread> {
    if calls == [] then []
    else
      var last := calls[|calls| - 1];
      ThreadsOf(calls[..|calls| - 1])
      + if last.AddThreadDescriptor? then [Thread(last.entryPoint, last.hasHMX, last.hasHVX)] else []
  }

  function MappingsOf(calls: seq<BuildCall>): seq<ConstantMapping> {
    if calls == [] then []
    else
      var last := calls[|calls| - 1];
      MappingsOf(calls[..|calls| - 1]) + if last.AddConstantMapping? then [last.mapping] else []
  }

  /** The name that was set last. */
  function NameOf(calls: seq<BuildCall>): seq<Byte> {
    if calls == [] then []
    else
      var last := calls[|calls| - 1];
      if last.SetNetworkName? then last.name else NameOf(calls[..|calls| - 1])
  }

  /** The number of cores that was set last. */
  function CoresOf(calls: seq<BuildCall>): U16 {
    if calls == [] then 0
    else
      var last := calls[|calls| - 1];
      if last.SetNumNSPs? then last.numNSPs else CoresOf(calls[..|calls| - 1])
  }

  /** The number of semaphores that was set last. */
  function SemaphoreCountOf(calls: seq<BuildCall>): U16 {
    if calls == [] then 0
    else
      var last := calls[|calls| - 1];
      if last.SetNumSemaphores? then last.numSemaphores else SemaphoreCountOf(calls[..|calls| - 1])
  }

  /** The value that semaphore `i` was given last, or 0 if it was dropped since or never given one. */
  function SemaphoreOf(calls: seq<BuildCall>, i: nat): U32 {
    if calls == [] then 0
    else
      match calls[|calls| - 1]
      case InitSemaphore(semId, val) => if semId == i then val else SemaphoreOf(calls[..|calls| - 1], i)
      case SetNumSemaphores(n) => if i >= n then 0 else SemaphoreOf(calls[..|calls| - 1], i)
      case _ => SemaphoreOf(calls[..|calls| - 1], i)
  }

  /** The size of the L2TCM state that was set last. */
  function L2TCMSizeOf(calls: seq<BuildCall>): U32 {
    if calls == [] then 0
    else
      var last := calls[|calls| - 1];
      if last.InitL2TCMResize? then last.newSize else L2TCMSizeOf(calls[..|calls| - 1])
  }

  /** Byte `k` of a word, the least significant first. */
  function ByteNo(word: U32, k: nat): Byte
    requires k < 4
  {
    if k == 0 then word % 256
    else if k == 1 then word / 0x100 % 256
    else if k == 2 then word / 0x1_0000 % 256
    else word / 0x100_0000 % 256
  }

  /** The value that byte `i` of the L2TCM state was given last, or 0. */
  function L2TCMByteOf(calls: seq<BuildCall>, i: nat): Byte {
    if calls == [] then 0
    else
      match calls[|calls| - 1]
      case InitL2TCMByte(offset, byte) => if offset == i then byte else L2TCMByteOf(calls[..|calls| - 1], i)
      case InitL2TCMWord(offset, word) =>
        if offset <= i < offset + 4 then ByteNo(word, i - offset) else L2TCMByteOf(calls[..|calls| - 1], i)
      case InitL2TCMResize(n) => if i >= n then 0 else L2TCMByteOf(calls[..|calls| - 1], i)
      case _ => L2TCMByteOf(calls[..|calls| - 1], i)
  }

  /** The plain values that were set last, but for the number of cores; at first all are 0 except for four. */
  function ScalarsOf(hwVersionMajor: U8, hwVersionMinor: U8, calls: seq<BuildCall>): Scalars {
    if calls == [] then
      Scalars(staticSharedDDRSize := 0, dynamicSharedDDRSize := 0, staticConstantsSize := 0,
              dynamicConstantsSize := 0, exitDoorbellOffset := 0xFFFF_FFFF_FFFF_FFFF, l2CachedDDRSize := 0,
              execContextMajorVersion := 4, numNSPs := 0, hwVersionMajor := hwVersionMajor,
              hwVersionMinor := hwVersionMinor, staticSharedDDRECCEnabled := 0, dynamicSharedDDRECCEnabled := 0,
              staticConstantsECCEnabled := 0, dynamicConstantsECCEnabled := 0, singleVTCMPage := 0, hasHvxFP := 0,
              hasHmxFP := 0, VTCMSize := 0, L2TCMSize := 0, networkHeapSize := 0)
    else
      var last := calls[|calls| - 1];
      if last.SetScalars? then last.scalars else ScalarsOf(hwVersionMajor, hwVersionMinor, calls[..|calls| - 1])
  }

  /** A stored thread descriptor: bit 0 of its type stands for HMX, bit 1 for HVX. */
  predicate DescriptorOf(d: ThreadDescriptor, t: Thread) {
    && d.entryPoint == t.entryPoint && d.typeMask < 4
    && (d.typeMask % 2 == 1 <==> t.hasHMX) && (d.typeMask / 2 == 1 <==> t.hasHVX)
  }

  // ------------------------------------------------------------------------------------------------
  // What is collected
  // ------------------------------------------------------------------------------------------------

  predicate HoldsLists(c: Content, calls: seq<BuildCall>) {
    && c.dmaRequests == RequestsOf(calls) && c.hostTable == HostEntriesOf(calls) && c.mappings == MappingsOf(calls)
    && |c.threads| == |ThreadsOf(calls)|
    && forall i :: 0 <= i < |c.threads| ==> DescriptorOf(c.threads[i], ThreadsOf(calls)[i])
  }

  predicate HoldsTables(c: Content, calls: seq<BuildCall>) {
    forall i :: 0 <= i < |c.nspTables| ==> c.nspTables[i] == EntriesOf(calls, i)
  }

  ghost predicate HoldsSemaphores(c: Content, calls: seq<BuildCall>) {
    && |c.semaphoreInitState| == SemaphoreCountOf(calls)
    && forall i: nat :: SemaphoreOf(calls, i) == if i < |c.semaphoreInitState| then c.semaphoreInitState[i] else 0
  }

  ghost predicate HoldsL2TCM(c: Content, calls: seq<BuildCall>) {
    && |c.L2TCMInitState| == L2TCMSizeOf(calls)
    && forall i: nat :: L2TCMByteOf(calls, i) == if i < |c.L2TCMInitState| then c.L2TCMInitState[i] else 0
  }

  predicate HoldsScalars(c: Content, hwVersionMajor: U8, hwVersionMinor: U8, calls: seq<BuildCall>) {
    && c.versionMajor == 1 && c.versionMinor == 0
    && c.scalars == ScalarsOf(hwVersionMajor, hwVersionMinor, calls).(numNSPs := CoresOf(calls))
  }

  ghost predicate Holds(c: Content, hwVersionMajor: U8, hwVersionMinor: U8, calls: seq<BuildCall>) {
    && HoldsLists(c, calls) && HoldsTables(c, calls) && HoldsSemaphores(c, calls) && HoldsL2TCM(c, calls)
    && HoldsScalars(c, hwVersionMajor, hwVersionMinor, calls)
  }

  /** What the assertions of a call say about the content. */
  predicate Allowed(c: Content, call: BuildCall) {
    match call
    case SetScalars(s) => s.numNSPs == c.scalars.numNSPs
    case InitSemaphore(semId, _) => semId < |c.semaphoreInitState|
    case InitL2TCMByte(offset, _) => offset < |c.L2TCMInitState|
    case InitL2TCMWord(offset, _) => offset + 4 <= |c.L2TCMInitState|
    case _ => true
  }

  lemma LastOf(calls: seq<BuildCall>, call: BuildCall)
    ensures var all := calls + [call]; all != [] && all[..|all| - 1] == calls && all[|all| - 1] == call
  {
  }

  lemma BuildLists(c: Content, call: BuildCall)
    ensures var b := Build(c, call);
            && b.dmaRequests == c.dmaRequests + (if call.AddDMARequest? then [call.request] else [])
            && b.hostTable == c.hostTable + (if call.AddHostMulticastEntry? then [call.hostEntry] else [])
            && b.mappings == c.mappings + (if call.AddConstantMapping? then [call.mapping] else [])
    ensures var b := Build(c, call);
            b.threads == c.threads + (if call.AddThreadDescriptor?
                                      then [ThreadDescriptor(call.entryPoint, TypeMask(call.hasHMX, call.hasHVX))]
                                      else [])
  {
    hide Resized, LE, Patch, TypeMask;
  }

  lemma {:induction false} ListsStep(c: Content, calls: seq<BuildCall>, call: BuildCall)
    requires HoldsLists(c, calls)
    ensures HoldsLists(Build(c, call), calls + [call])
  {
    hide Build, TypeMask, DescriptorOf;
    LastOf(calls, call);
    BuildLists(c, call);
    if call.AddThreadDescriptor? { DescriptorHolds(call); }
  }

  lemma DescriptorHolds(call: BuildCall)
    requires call.AddThreadDescriptor?
    ensures DescriptorOf(ThreadDescriptor(call.entryPoint, TypeMask(call.hasHMX, call.hasHVX)),
                         Thread(call.entryPoint, call.hasHMX, call.hasHVX))
  {
  }

  lemma BuildTables(c: Content, call: BuildCall, i: nat)
    ensures var b := Build(c, call);
            && |b.nspTables| == |c.nspTables|
            && (i < |c.nspTables| ==>
                  b.nspTables[i] == c.nspTables[i]
                                    + (if call.AddNSPMulticastEntry? && call.core == i then [call.entry] else []))
  {
    hide Resized, LE, Patch, TypeMask;
  }

  lemma {:induction false} TablesStep(c: Content, calls: seq<BuildCall>, call: BuildCall)
    requires HoldsTables(c, calls)
    ensures HoldsTables(Build(c, call), calls + [call])
  {
    hide Build;
    LastOf(calls, call);
    BuildTables(c, call, 0);
    forall i | 0 <= i < |c.nspTables| ensures Build(c, call).nspTables[i] == EntriesOf(calls + [call], i) {
      BuildTables(c, call, i);
    }
  }

  lemma BuildSemaphores(c: Content, call: BuildCall)
    requires Allowed(c, call)
    ensures var b, was := Build(c, call).semaphoreInitState, c.semaphoreInitState;
            match call
            case SetNumSemaphores(n) => |b| == n && forall i :: 0 <= i < n ==> b[i] == if i < |was| then was[i] else 0
            case InitSemaphore(semId, val) => b == was[semId := val]
            case _ => b == was
  {
    hide LE, Patch, TypeMask;
  }

  lemma {:induction false} SemaphoresStep(c: Content, calls: seq<BuildCall>, call: BuildCall)
    requires HoldsSemaphores(c, calls) && Allowed(c, call)
    ensures HoldsSemaphores(Build(c, call), calls + [call])
  {
    BuildSemaphores(c, call);
    hide Build;
    LastOf(calls, call);
    var all, was, now := calls + [call], c.semaphoreInitState, Build(c, call).semaphoreInitState;
    forall i: nat ensures SemaphoreOf(all, i) == if i < |now| then now[i] else 0 {
      assert SemaphoreOf(calls, i) == if i < |was| then was[i] else 0;
    }
  }

  lemma BuildL2TCM(c: Content, call: BuildCall)
    requires Allowed(c, call)
    ensures var b, was := Build(c, call).L2TCMInitState, c.L2TCMInitState;
            match call
            case InitL2TCMResize(n) => |b| == n && forall i :: 0 <= i < n ==> b[i] == if i < |was| then was[i] else 0
            case InitL2TCMByte(offset, byte) => b == was[offset := byte]
            case InitL2TCMWord(offset, word) =>
              |b| == |was|
              && forall i :: 0 <= i < |b| ==>
                   b[i] == if offset <= i < offset + 4 then ByteNo(word, i - offset) else was[i]
            case _ => b == was
  {
    hide LE, TypeMask, ByteNo;
    if call.InitL2TCMWord? { BytesOfWord(call.word); }
  }

  lemma {:induction false} L2TCMStep(c: Content, calls: seq<BuildCall>, call: BuildCall)
    requires HoldsL2TCM(c, calls) && Allowed(c, call)
    ensures HoldsL2TCM(Build(c, call), calls + [call])
  {
    BuildL2TCM(c, call);
    hide Build, ByteNo;
    LastOf(calls, call);
    var all, was, now := calls + [call], c.L2TCMInitState, Build(c, call).L2TCMInitState;
    forall i: nat ensures L2TCMByteOf(all, i) == if i < |now| then now[i] else 0 {
      assert L2TCMByteOf(calls, i) == if i < |was| then was[i] else 0;
    }
  }

  lemma BytesOfWord(word: U32)
    ensures forall k :: 0 <= k < 4 ==> LE(word, 4)[k] == ByteNo(word, k)
  {
    Pow256Values();
    forall k | 0 <= k < 4 ensures LE(word, 4)[k] == ByteNo(word, k) { LEAt(word, 4, k); }
  }

  lemma BuildScalars(c: Content, call: BuildCall)
    ensures var b := Build(c, call);
            && b.versionMajor == c.versionMajor && b.versionMinor == c.versionMinor
            && b.scalars == (match call
                             case SetNumNSPs(n) => c.scalars.(numNSPs := n)
                             case SetScalars(v) => v
                             case _ => c.scalars)
            && b.name == if call.SetNetworkName? then call.name else c.name
  {
    hide Resized, LE, Patch, TypeMask;
  }

  lemma {:induction false} ScalarsStep(c: Content, hwVersionMajor: U8, hwVersionMinor: U8, calls: seq<BuildCall>,
                                       call: BuildCall)
    requires HoldsScalars(c, hwVersionMajor, hwVersionMinor, calls) && Allowed(c, call)
    ensures HoldsScalars(Build(c, call), hwVersionMajor, hwVersionMinor, calls + [call])
  {
    BuildScalars(c, call);
    hide Build;
    LastOf(calls, call);
  }

  lemma {:induction false} NameStep(c: Content, calls: seq<BuildCall>, call: BuildCall)
    requires c.name == NameOf(calls)
    ensures Build(c, call).name == NameOf(calls + [call])
  {
    BuildScalars(c, call);
    hide Build;
    LastOf(calls, call);
  }

  lemma NothingHeld(hwVersionMajor: U8, hwVersionMinor: U8)
    ensures var c := Started(hwVersionMajor, hwVersionMinor).content;
            Holds(c, hwVersionMajor, hwVersionMinor, []) && c.name == NameOf([])
  {
  }

  /** What the binary writer has collected after admitted calls: exactly what the calls said, in their order. */
  lemma {:induction false} CallsAreHeld(hwVersionMajor: U8, hwVersionMinor: U8, calls: seq<BuildCall>)
    requires AdmittedAll(Started(hwVersionMajor, hwVersionMinor), calls)
    ensures var c := ApplyAll(Started(hwVersionMajor, hwVersionMinor), calls).content;
            Holds(c, hwVersionMajor, hwVersionMinor, calls) && c.name == NameOf(calls)
  {
    if calls == [] {
      NothingHeld(hwVersionMajor, hwVersionMinor);
    } else {
      var before, last := calls[..|calls| - 1], calls[|calls| - 1];
      CallsAreHeld(hwVersionMajor, hwVersionMinor, before);
      assert before + [last] == calls;
      var d := ApplyAll(Started(hwVersionMajor, hwVersionMinor), before);
      assert Allowed(d.content, last);
      hide Build, MappedCores, Started, Admitted, Allowed, HoldsLists, HoldsTables, HoldsSemaphores, HoldsL2TCM,
        HoldsScalars;
      ListsStep(d.content, before, last);
      TablesStep(d.content, before, last);
      SemaphoresStep(d.content, before, last);
      L2TCMStep(d.content, before, last);
      ScalarsStep(d.content, hwVersionMajor, hwVersionMinor, before, last);
      NameStep(d.content, before, last);
    }
  }

  lemma OrMasked(a: bv32, b: bv32, m: bv32)
    ensures (a | b) & m == (a & m) | (b & m)
  {
  }

  lemma OrIsZeroIff(a: bv32, b: bv32)
    ensures a | b == 0 <==> a == 0 && b == 0
  {
  }

  lemma ApartOfOr(cores: bv32, more: bv32, others: bv32)
    ensures Apart(cores | more, others) <==> Apart(cores, others) && Apart(more, others)
  {
    OrMasked(cores, more, others);
    OrIsZeroIff(cores & others, more & others);
  }

  lemma ApartOfMapped(cores: bv32, call: BuildCall, others: bv32)
    ensures Apart(MappedCores(cores, call), others)
       <==> Apart(cores, others) && (call.AddConstantMapping? ==> Apart(Cores(call.mapping), others))
  {
    hide Apart;
    if call.AddConstantMapping? {
      var more := Cores(call.mapping);
      assert MappedCores(cores, call) == cores | more;
      hide Cores, MappedCores;
      ApartOfOr(cores, more, others);
    }
  }

  /** No mapping added so far is for one of these cores. */
  predicate NoneMapped(mappings: seq<ConstantMapping>, cores: bv32) {
    forall i :: 0 <= i < |mappings| ==> Apart(Cores(mappings[i]), cores)
  }

  lemma NoneMappedMore(mappings: seq<ConstantMapping>, mapping: ConstantMapping, cores: bv32)
    ensures NoneMapped(mappings + [mapping], cores) <==> NoneMapped(mappings, cores) && Apart(Cores(mapping), cores)
  {
    hide Cores, Apart;
    var all := mappings + [mapping];
    assert all[|mappings|] == mapping && forall i :: 0 <= i < |mappings| ==> all[i] == mappings[i];
  }

  /** The cores that are marked as mapped are those of the mappings added so far. */
  lemma {:induction false} MappedSoFar(hwVersionMajor: U8, hwVersionMinor: U8, calls: seq<BuildCall>, cores: bv32)
    ensures Apart(ApplyAll(Started(hwVersionMajor, hwVersionMinor), calls).cores, cores)
            <==> NoneMapped(MappingsOf(calls), cores)
  {
    if calls == [] {
      hide Cores;
    } else {
      var before, last := calls[..|calls| - 1], calls[|calls| - 1];
      MappedSoFar(hwVersionMajor, hwVersionMinor, before, cores);
      hide Build, Started, Cores, NoneMapped, Apart, MappedCores;
      ApartOfMapped(ApplyAll(Started(hwVersionMajor, hwVersionMinor), before).cores, last, cores);
      if last.AddConstantMapping? {
        NoneMappedMore(MappingsOf(before), last.mapping, cores);
      } else {
        assert MappingsOf(calls) == MappingsOf(before);
      }
    }
  }

  /** A constant mapping is admitted exactly when none of its cores was mapped by an earlier call. */
  lemma MappingIsAdmittedIff(hwVersionMajor: U8, hwVersionMinor: U8, calls: seq<BuildCall>, mapping: ConstantMapping)
    ensures Admitted(ApplyAll(Started(hwVersionMajor, hwVersionMinor), calls), AddConstantMapping(mapping))
            <==> forall i :: 0 <= i < |MappingsOf(calls)| ==> Apart(Cores(MappingsOf(calls)[i]), Cores(mapping))
  {
    hide ApplyAll, Started, Cores, MappingsOf, Apart;
    MappedSoFar(hwVersionMajor, hwVersionMinor, calls, Cores(mapping));
  }

  // ------------------------------------------------------------------------------------------------
  // What is in the file
  // ------------------------------------------------------------------------------------------------

  /** A network without a name is called "unnamed". */
  function NameOrUnnamed(name: seq<Byte>): seq<Byte> {
    if name == [] then ['u' as int, 'n' as int, 'n' as int, 'a' as int, 'm' as int, 'e' as int, 'd' as int] else name
  }

  lemma {:induction false} FinishedHolds(d: Draft, hwVersionMajor: U8, hwVersionMinor: U8, calls: seq<BuildCall>)
    requires CanFinalize(d) && Holds(d.content, hwVersionMajor, hwVersionMinor, calls)
    requires d.content.name == NameOf(calls)
    ensures var c := Finished(d);
            && Holds(c, hwVersionMajor, hwVersionMinor, calls) && |c.nspTables| == CoresOf(calls)
            && c.name == NameOrUnnamed(NameOf(calls))
  {
    hide ImageSize, DescriptorOf;
  }

  /** A content is determined by what it holds. */
  ghost predicate HoldsAll(c: Content, hwVersionMajor: U8, hwVersionMinor: U8, calls: seq<BuildCall>) {
    && Holds(c, hwVersionMajor, hwVersionMinor, calls) && |c.nspTables| == CoresOf(calls)
    && c.name == NameOrUnnamed(NameOf(calls))
  }

  lemma {:induction false} HeldIsOne(a: Content, b: Content, hwVersionMajor: U8, hwVersionMinor: U8,
                                     calls: seq<BuildCall>)
    requires HoldsAll(a, hwVersionMajor, hwVersionMinor, calls) && HoldsAll(b, hwVersionMajor, hwVersionMinor, calls)
    ensures a == b
  {
    hide ScalarsOf, RequestsOf, HostEntriesOf, ThreadsOf, MappingsOf, EntriesOf, SemaphoreOf, L2TCMByteOf, NameOf;
    assert a.nspTables == b.nspTables && a.semaphoreInitState == b.semaphoreInitState;
    assert a.L2TCMInitState == b.L2TCMInitState;
    forall i | 0 <= i < |a.threads| ensures a.threads[i] == b.threads[i] {
      assert DescriptorOf(a.threads[i], ThreadsOf(calls)[i]) && DescriptorOf(b.threads[i], ThreadsOf(calls)[i]);
    }
    assert a.threads == b.threads;
  }

  lemma SizesOfFlat(c: Content)
    ensures |c.semaphoreInitState| < 0x1_0000 ==> FlatOf(c).numSemaphores == |c.semaphoreInitState|
    ensures |c.L2TCMInitState| < 0x1_0000_0000 ==> FlatOf(c).L2TCMInitSize == |c.L2TCMInitState|
    ensures FlatOf(c).content == Expressible(c)
  {
    hide Expressible;
  }

  /**
   From the calls to the file and back: what is finalized, read at any address and translated holds exactly what the
   calls said, with a table for each of the cores, if and only if the counts fit their fields and the name has no NUL.
   */
  lemma FileHoldsCallsIff(hwVersionMajor: U8, hwVersionMinor: U8, calls: seq<BuildCall>, base: nat)
    requires AdmittedAll(Started(hwVersionMajor, hwVersionMinor), calls)
    requires CanFinalize(ApplyAll(Started(hwVersionMajor, hwVersionMinor), calls))
    ensures var c := Finished(ApplyAll(Started(hwVersionMajor, hwVersionMinor), calls));
            var r := ReadAndTranslate(Image(c, 0, 0), base);
            && r.Some? && r.value.numSemaphores == SemaphoreCountOf(calls)
            && r.value.L2TCMInitSize == L2TCMSizeOf(calls)
            && HoldsAll(c, hwVersionMajor, hwVersionMinor, calls)
            && (HoldsAll(r.value.content, hwVersionMajor, hwVersionMinor, calls) <==> CountsFit(c))
  {
    var d := ApplyAll(Started(hwVersionMajor, hwVersionMinor), calls);
    CallsAreHeld(hwVersionMajor, hwVersionMinor, calls);
    FinishedHolds(d, hwVersionMajor, hwVersionMinor, calls);
    RunsAgree(hwVersionMajor, hwVersionMinor, calls);
    FinishedIsReadable(d, FlatApplyAll(FlatStarted(hwVersionMajor, hwVersionMinor), calls));
    hide ReadAndTranslate, Image, Finished, ApplyAll, FlatApplyAll, Started, FlatStarted, AdmittedAll, CanFinalize,
      CountsFit, Expressible, FlatOf, WellFormed, Agree, HoldsLists, HoldsTables, HoldsScalars;
    var c := Finished(d);
    RoundTrip(c, base);
    ExpressibleIsAllIff(c);
    SizesOfFlat(c);
    if HoldsAll(Expressible(c), hwVersionMajor, hwVersionMinor, calls) {
      HeldIsOne(c, Expressible(c), hwVersionMajor, hwVersionMinor, calls);
    }
  }

  lemma {:induction false} NoEntriesBeyond(hwVersionMajor: U8, hwVersionMinor: U8, calls: seq<BuildCall>, core: nat)
    requires AdmittedAll(Started(hwVersionMajor, hwVersionMinor), calls) && core >= MAX_CORES
    ensures EntriesOf(calls, core) == []
  {
    if calls != [] { NoEntriesBeyond(hwVersionMajor, hwVersionMinor, calls[..|calls| - 1], core); }
  }

  /**
   The flat writer packs what the calls said without any condition, but with a table for each core up to the highest
   number that was ever set.
   */
  lemma FlatHoldsCalls(hwVersionMajor: U8, hwVersionMinor: U8, calls: seq<BuildCall>)
    requires AdmittedAll(Started(hwVersionMajor, hwVersionMinor), calls)
    ensures var r := FlatFinished(FlatApplyAll(FlatStarted(hwVersionMajor, hwVersionMinor), calls));
            && Holds(r.content, hwVersionMajor, hwVersionMinor, calls)
            && |r.content.nspTables| == HighestNumNSPs(calls) && r.content.name == NameOrUnnamed(NameOf(calls))
            && r.numSemaphores == SemaphoreCountOf(calls) && r.L2TCMInitSize == L2TCMSizeOf(calls)
  {
    CallsAreHeld(hwVersionMajor, hwVersionMinor, calls);
    RunsAgree(hwVersionMajor, hwVersionMinor, calls);
    var f := FlatApplyAll(FlatStarted(hwVersionMajor, hwVersionMinor), calls);
    var tables := f.flat.content.nspTables;
    forall i | 0 <= i < |tables| ensures tables[i] == EntriesOf(calls, i) {
      if i >= MAX_CORES { NoEntriesBeyond(hwVersionMajor, hwVersionMinor, calls, i); }
    }
    hide ApplyAll, FlatApplyAll, Started, FlatStarted, AdmittedAll, DescriptorOf, EntriesOf;
  }
}
