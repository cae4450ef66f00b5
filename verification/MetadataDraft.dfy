/** What the builder calls collect, as values: both writers are specified by the same calls. */
module MetadataDraft {
  import opened ByteCodec
  import opened MetadataFormat
  import opened MetadataImage
  import opened FlatTranslation
  import R = MetadataReader

  const MAX_CORES := 16
  const EXEC_CONTEXT_MAJOR_VERSION := 4
  const NO_DOORBELL: U64 := 0xFFFF_FFFF_FFFF_FFFF
  const UNNAMED: seq<Byte> := [117, 110, 110, 97, 109, 101, 100]

  /** The calls that build the metadata; the plain setters are one update of the scalars. */
  datatype BuildCall =
    | SetNumNSPs(numNSPs: U16)
    | SetScalars(scalars: Scalars)
    | SetNetworkName(name: seq<Byte>)
    | SetNumSemaphores(numSemaphores: U16)
    | InitSemaphore(semId: U32, val: U32)
    | InitL2TCMResize(newSize: U32)
    | InitL2TCMByte(offset: U64, byte: U8)
    | InitL2TCMWord(offset: U64, word: U32)
    | AddDMARequest(request: DmaRequest)
    | AddNSPMulticastEntry(core: nat, entry: NspEntry)
    | AddHostMulticastEntry(hostEntry: HostEntry)
    | AddThreadDescriptor(entryPoint: U64, hasHMX: bool, hasHVX: bool)
    | AddConstantMapping(mapping: ConstantMapping)

  /** The binary writer's state: the content with the tables of all sixteen cores, and the mapped cores. */
  datatype Draft = Draft(content: Content, cores: bv32)

  /** The flat writer's state. */
  datatype FlatDraft = FlatDraft(flat: Flat, cores: bv32)

  function InitialScalars(hwVersionMajor: U8, hwVersionMinor: U8): Scalars {
    Scalars(0, 0, 0, 0, NO_DOORBELL, 0, EXEC_CONTEXT_MAJOR_VERSION, 0, hwVersionMajor, hwVersionMinor, 0, 0, 0, 0, 0, 0,
            0, 0, 0, 0)
  }

  function InitialContent(hwVersionMajor: U8, hwVersionMinor: U8, tables: seq<seq<NspEntry>>): Content {
    Content(R.MAJOR_VERSION, R.MINOR_VERSION, InitialScalars(hwVersionMajor, hwVersionMinor), [], [], [], [], tables,
            [], [], [])
  }

  function NoTables(n: nat): (ts: seq<seq<NspEntry>>)
    ensures |ts| == n && forall i :: 0 <= i < n ==> ts[i] == []
  {
    seq(n, _ => [])
  }

  function Resized<T>(xs: seq<T>, n: nat, zero: T): (r: seq<T>)
    ensures |r| == n
    ensures forall i :: 0 <= i < n ==> r[i] == if i < |xs| then xs[i] else zero
  {
    seq(n, i requires 0 <= i => if i < |xs| then xs[i] else zero)
  }

  function TypeMask(hasHMX: bool, hasHVX: bool): U8 {
    (if hasHMX then 1 else 0) + (if hasHVX then 2 else 0)
  }

  /** The cores that a constant mapping is for. */
  function Cores(m: ConstantMapping): bv32 { m.coreMask as bv32 }

  /** No core is in both masks. */
  predicate Apart(cores: bv32, others: bv32) { cores & others == 0 }

  /** A valid semaphore operation has one of the seven opcodes, a valid doorbell one of the three sizes. */
  predicate ValidRequest(r: DmaRequest) {
    r.devAddrSpace <= 1 && ValidSemaphoreOps(r.semaphoreOps) && ValidDoorbellOps(r.doorbellOps)
  }

  predicate ValidSemaphoreOps(ops: seq<SemaphoreOp>) { forall o :: o in ops ==> o.semOp <= 6 }

  predicate ValidDoorbellOps(ops: seq<DoorbellOp>) { forall o :: o in ops ==> o.size <= 2 }

  /** The assertions of a call, and the bounds of the arrays it indexes. */
  predicate Admitted(d: Draft, call: BuildCall) {
    match call
    case SetScalars(s) =>
      s.numNSPs == d.content.scalars.numNSPs
      && s.execContextMajorVersion == d.content.scalars.execContextMajorVersion
      && s.hwVersionMajor == d.content.scalars.hwVersionMajor && s.hwVersionMinor == d.content.scalars.hwVersionMinor
    case InitSemaphore(semId, _) => semId < |d.content.semaphoreInitState|
    case InitL2TCMByte(offset, _) => offset < |d.content.L2TCMInitState|
    case InitL2TCMWord(offset, _) => offset + 4 <= |d.content.L2TCMInitState|
    case AddDMARequest(r) => ValidRequest(r)
    case AddNSPMulticastEntry(core, _) => core < d.content.scalars.numNSPs && core < MAX_CORES
    case AddThreadDescriptor(entryPoint, _, _) => entryPoint != 0
    case AddConstantMapping(m) => Apart(d.cores, Cores(m))
    case _ => true
  }

  /** The part of a call that both writers perform alike. */
  function Build(c: Content, call: BuildCall): Content {
    match call
    case SetNumNSPs(n) => c.(scalars := c.scalars.(numNSPs := n))
    case SetScalars(s) => c.(scalars := s)
    case SetNetworkName(name) => c.(name := name)
    case SetNumSemaphores(n) => c.(semaphoreInitState := Resized(c.semaphoreInitState, n, 0))
    case InitSemaphore(semId, val) =>
      if semId < |c.semaphoreInitState| then c.(semaphoreInitState := c.semaphoreInitState[semId := val]) else c
    case InitL2TCMResize(n) => c.(L2TCMInitState := Resized(c.L2TCMInitState, n, 0))
    case InitL2TCMByte(offset, byte) =>
      if offset < |c.L2TCMInitState| then c.(L2TCMInitState := c.L2TCMInitState[offset := byte]) else c
    case InitL2TCMWord(offset, word) =>
      if offset + 4 <= |c.L2TCMInitState| then c.(L2TCMInitState := Patch(c.L2TCMInitState, offset, LE(word, 4))) else c
    case AddDMARequest(r) => c.(dmaRequests := c.dmaRequests + [r])
    case AddNSPMulticastEntry(core, e) =>
      if core < |c.nspTables| then c.(nspTables := c.nspTables[core := c.nspTables[core] + [e]]) else c
    case AddHostMulticastEntry(e) => c.(hostTable := c.hostTable + [e])
    case AddThreadDescriptor(entryPoint, hasHMX, hasHVX) =>
      c.(threads := c.threads + [ThreadDescriptor(entryPoint, TypeMask(hasHMX, hasHVX))])
    case AddConstantMapping(m) => c.(mappings := c.mappings + [m])
  }

  function MappedCores(cores: bv32, call: BuildCall): bv32 {
    if call.AddConstantMapping? then cores | Cores(call.mapping) else cores
  }

  function Apply(d: Draft, call: BuildCall): Draft {
    Draft(Build(d.content, call), MappedCores(d.cores, call))
  }

  /** The flat writer's tables grow when the number of cores exceeds them, and never shrink. */
  function Grown(ts: seq<seq<NspEntry>>, n: nat): (r: seq<seq<NspEntry>>)
    ensures |r| == if n > |ts| then n else |ts|
    ensures forall i :: 0 <= i < |r| ==> r[i] == if i < |ts| then ts[i] else []
  {
    if n > |ts| then ts + NoTables(n - |ts|) else ts
  }

  function FlatApply(d: FlatDraft, call: BuildCall): FlatDraft {
    var c := Build(d.flat.content, call);
    var grown := if call.SetNumNSPs? then c.(nspTables := Grown(c.nspTables, call.numNSPs)) else c;
    FlatDraft(
      Flat(grown, if call.SetNumSemaphores? then call.numSemaphores else d.flat.numSemaphores,
           if call.InitL2TCMResize? then call.newSize else d.flat.L2TCMInitSize),
      MappedCores(d.cores, call))
  }

  function Named(c: Content): Content {
    if c.name == [] then c.(name := UNNAMED) else c
  }

  /** What the binary writer serializes: the tables of the cores in use. */
  function Finished(d: Draft): Content
    requires d.content.scalars.numNSPs <= |d.content.nspTables|
  {
    Named(d.content.(nspTables := d.content.nspTables[..d.content.scalars.numNSPs]))
  }

  /** A 32-bit value as the signed `int` the getters return. */
  function AsInt(v: U32): int { if v < 0x8000_0000 then v else v - 0x1_0000_0000 }

  /** The assertions of `finalize`, the bound of the table array, and `int` offsets that do not overflow. */
  predicate CanFinalize(d: Draft) {
    && 1 <= d.content.scalars.numNSPs <= |d.content.nspTables|
    && d.content.scalars.VTCMSize != 0 && d.content.scalars.L2TCMSize != 0
    && |d.content.L2TCMInitState| <= AsInt(d.content.scalars.L2TCMSize)
    && d.content.scalars.exitDoorbellOffset < |d.content.L2TCMInitState|
    && ImageSize(Finished(d)) < 0x8000_0000
  }
}
