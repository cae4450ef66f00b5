/**
 The translation of a loaded image to the flat form: it follows the pointers and copies as many records as the
 counts say. On a relocated image it yields the content, cut to what the counts can express.
 */
module FlatTranslation {
  import opened ByteCodec
  import opened CStrings
  import opened RecordArrays
  import opened MetadataFormat
  import opened MetadataImage
  import opened MetadataReader

  /** The flat form: the content, and two sizes that it stores besides the vectors. */
  datatype Flat = Flat(content: Content, numSemaphores: U16, L2TCMInitSize: U32)

  // ------------------------------------------------------------------------------------------------
  // Following the pointers
  // ------------------------------------------------------------------------------------------------

  /** Is the array of `n` records at the pointer inside the memory? */
  predicate InMemory<T>(c: Codec<T>, s: seq<Byte>, base: nat, pointer: U64, n: nat) {
    Address(pointer, base) + n * c.size <= |s|
  }

  /** The `n` records at a pointer. */
  function Records<T>(c: Codec<T>, s: seq<Byte>, base: nat, pointer: U64, n: nat): (xs: seq<T>)
    requires InMemory(c, s, base, pointer, n)
    ensures |xs| == n
  {
    ReadAll(c, s[Address(pointer, base)..], n)
  }

  predicate RequestReadable(s: seq<Byte>, base: nat, r: RequestRecord) {
    && InMemory(SEMAPHORE_OPS, s, base, r.semaphoreOps, r.numSemaphoreOps)
    && InMemory(DOORBELL_OPS, s, base, r.doorbellOps, r.numDoorbellOps)
  }

  function RequestFrom(s: seq<Byte>, base: nat, r: RequestRecord): DmaRequest
    requires RequestReadable(s, base, r)
  {
    DmaRequest(r.num, r.hostOffset, r.devAddrSpace, r.devOffset, r.size, r.inOut, r.portId, r.mcId,
               Records(SEMAPHORE_OPS, s, base, r.semaphoreOps, r.numSemaphoreOps),
               Records(DOORBELL_OPS, s, base, r.doorbellOps, r.numDoorbellOps))
  }

  predicate RequestsReadable(s: seq<Byte>, base: nat, pointer: U64, n: nat) {
    && InMemory(REQUESTS, s, base, pointer, n)
    && forall i :: 0 <= i < n ==> RequestReadable(s, base, Records(REQUESTS, s, base, pointer, n)[i])
  }

  function RequestsFrom(s: seq<Byte>, base: nat, pointer: U64, n: nat): (xs: seq<DmaRequest>)
    requires RequestsReadable(s, base, pointer, n)
    ensures |xs| == n
  {
    var records := Records(REQUESTS, s, base, pointer, n);
    seq(n, i requires 0 <= i < n => RequestFrom(s, base, records[i]))
  }

  predicate TablesReadable(s: seq<Byte>, base: nat, pointer: U64, n: nat) {
    && InMemory(TABLES, s, base, pointer, n)
    && forall i :: 0 <= i < n ==>
         var t := Records(TABLES, s, base, pointer, n)[i];
         InMemory(NSP_ENTRIES, s, base, t.entries, t.numEntries)
  }

  function TablesFrom(s: seq<Byte>, base: nat, pointer: U64, n: nat): (xs: seq<seq<NspEntry>>)
    requires TablesReadable(s, base, pointer, n)
    ensures |xs| == n
  {
    var records := Records(TABLES, s, base, pointer, n);
    seq(n, i requires 0 <= i < n => Records(NSP_ENTRIES, s, base, records[i].entries, records[i].numEntries))
  }

  predicate HostReadable(s: seq<Byte>, base: nat, pointer: U64) {
    && InMemory(TABLES, s, base, pointer, 1)
    && var t := Records(TABLES, s, base, pointer, 1)[0];
       InMemory(HOST_ENTRIES, s, base, t.entries, t.numEntries)
  }

  function HostFrom(s: seq<Byte>, base: nat, pointer: U64): seq<HostEntry>
    requires HostReadable(s, base, pointer)
  {
    var t := Records(TABLES, s, base, pointer, 1)[0];
    Records(HOST_ENTRIES, s, base, t.entries, t.numEntries)
  }

  predicate NameReadable(s: seq<Byte>, base: nat, pointer: U64) {
    Address(pointer, base) <= |s| && 0 in s[Address(pointer, base)..]
  }

  function NameFrom(s: seq<Byte>, base: nat, pointer: U64): seq<Byte>
    requires NameReadable(s, base, pointer)
  {
    UpToNul(s[Address(pointer, base)..])
  }

  /** Every access of the translation of header `h` stays inside the memory. */
  predicate Readable(s: seq<Byte>, base: nat, h: Header) {
    && NameReadable(s, base, h.tables.networkName)
    && InMemory(WORDS, s, base, h.tables.semaphoreInitState, h.counts.numSemaphores)
    && InMemory(BYTES, s, base, h.tables.L2TCMInitState, h.counts.L2TCMInitSize)
    && RequestsReadable(s, base, h.tables.dmaRequests, h.counts.numDMARequests)
    && TablesReadable(s, base, h.tables.nspMulticastTables, h.scalars.numNSPs)
    && HostReadable(s, base, h.tables.hostMulticastTable)
    && InMemory(THREADS, s, base, h.tables.threadDescriptors, h.counts.numThreadDescriptors)
    && InMemory(MAPPINGS, s, base, h.tables.constantMappings, h.counts.numConstantMappings)
  }

  function Translated(s: seq<Byte>, base: nat, h: Header): Flat
    requires Readable(s, base, h)
  {
    Flat(
      Content(h.versionMajor, h.versionMinor, h.scalars, NameFrom(s, base, h.tables.networkName),
              Records(WORDS, s, base, h.tables.semaphoreInitState, h.counts.numSemaphores),
              Records(BYTES, s, base, h.tables.L2TCMInitState, h.counts.L2TCMInitSize),
              RequestsFrom(s, base, h.tables.dmaRequests, h.counts.numDMARequests),
              TablesFrom(s, base, h.tables.nspMulticastTables, h.scalars.numNSPs),
              HostFrom(s, base, h.tables.hostMulticastTable),
              Records(THREADS, s, base, h.tables.threadDescriptors, h.counts.numThreadDescriptors),
              Records(MAPPINGS, s, base, h.tables.constantMappings, h.counts.numConstantMappings)),
      h.counts.numSemaphores, h.counts.L2TCMInitSize)
  }

  // ------------------------------------------------------------------------------------------------
  // What the counts can express
  // ------------------------------------------------------------------------------------------------

  function Cut<T>(xs: seq<T>, width: nat): seq<T>
    requires width >= 1
  {
    xs[..|xs| % width]
  }

  function CutRequest(r: DmaRequest): DmaRequest {
    r.(semaphoreOps := Cut(r.semaphoreOps, 0x100), doorbellOps := Cut(r.doorbellOps, 0x100))
  }

  function CutRequests(rs: seq<DmaRequest>): (xs: seq<DmaRequest>)
    ensures |xs| == |rs| % 0x1_0000
  {
    seq(|rs| % 0x1_0000, i requires 0 <= i < |rs| % 0x1_0000 => CutRequest(rs[i]))
  }

  function CutTables(ts: seq<seq<NspEntry>>): (xs: seq<seq<NspEntry>>)
    ensures |xs| == |ts|
  {
    seq(|ts|, i requires 0 <= i < |ts| => Cut(ts[i], 0x1_0000))
  }

  /** The content that survives: every array cut to its count modulo the width of the count's field. */
  function Expressible(c: Content): Content {
    c.(name := UpToNul(c.name),
       semaphoreInitState := Cut(c.semaphoreInitState, 0x1_0000),
       L2TCMInitState := Cut(c.L2TCMInitState, 0x1_0000_0000),
       dmaRequests := CutRequests(c.dmaRequests),
       nspTables := CutTables(c.nspTables),
       hostTable := Cut(c.hostTable, 0x1_0000),
       threads := Cut(c.threads, 0x1_0000),
       mappings := Cut(c.mappings, 0x1_0000))
  }

  /** The limits within which nothing is lost. */
  predicate CountsFit(c: Content) {
    && 0 !in c.name
    && |c.semaphoreInitState| < 0x1_0000 && |c.L2TCMInitState| < 0x1_0000_0000
    && |c.dmaRequests| < 0x1_0000
    && (forall i :: 0 <= i < |c.dmaRequests| ==>
          |c.dmaRequests[i].semaphoreOps| < 0x100 && |c.dmaRequests[i].doorbellOps| < 0x100)
    && (forall i :: 0 <= i < |c.nspTables| ==> |c.nspTables[i]| < 0x1_0000)
    && |c.hostTable| < 0x1_0000 && |c.threads| < 0x1_0000 && |c.mappings| < 0x1_0000
  }

  lemma CutIsAllIff<T>(xs: seq<T>, width: nat)
    requires width >= 1
    ensures Cut(xs, width) == xs <==> |xs| < width
  {
    if |xs| >= width { assert |Cut(xs, width)| < |xs|; }
  }

  /** The image expresses the whole content exactly when the counts fit their fields and the name has no NUL. */
  lemma ExpressibleIsAllIff(c: Content)
    ensures Expressible(c) == c <==> CountsFit(c)
  {
    UpToNulIsAllIff(c.name);
    CutIsAllIff(c.semaphoreInitState, 0x1_0000);
    CutIsAllIff(c.L2TCMInitState, 0x1_0000_0000);
    CutIsAllIff(c.hostTable, 0x1_0000);
    CutIsAllIff(c.threads, 0x1_0000);
    CutIsAllIff(c.mappings, 0x1_0000);
    RequestsUncutIff(c.dmaRequests);
    TablesUncutIff(c.nspTables);
    hide UpToNul, Cut, CutRequests, CutTables;
  }

  lemma RequestsUncutIff(rs: seq<DmaRequest>)
    ensures CutRequests(rs) == rs <==>
      |rs| < 0x1_0000
      && forall i :: 0 <= i < |rs| ==> |rs[i].semaphoreOps| < 0x100 && |rs[i].doorbellOps| < 0x100
  {
    forall i | 0 <= i < |rs|
      ensures CutRequest(rs[i]) == rs[i] <==> |rs[i].semaphoreOps| < 0x100 && |rs[i].doorbellOps| < 0x100
    {
      CutIsAllIff(rs[i].semaphoreOps, 0x100);
      CutIsAllIff(rs[i].doorbellOps, 0x100);
    }
    hide CutRequest;
    if CutRequests(rs) == rs {
      assert |rs| % 0x1_0000 == |rs|;
      forall i | 0 <= i < |rs| ensures CutRequest(rs[i]) == rs[i] { assert rs[i] == CutRequests(rs)[i]; }
    }
  }

  lemma TablesUncutIff(ts: seq<seq<NspEntry>>)
    ensures CutTables(ts) == ts <==> forall i :: 0 <= i < |ts| ==> |ts[i]| < 0x1_0000
  {
    forall i | 0 <= i < |ts| ensures Cut(ts[i], 0x1_0000) == ts[i] <==> |ts[i]| < 0x1_0000 {
      CutIsAllIff(ts[i], 0x1_0000);
    }
    if CutTables(ts) == ts {
      forall i | 0 <= i < |ts| ensures Cut(ts[i], 0x1_0000) == ts[i] { assert ts[i] == CutTables(ts)[i]; }
    }
  }
}
