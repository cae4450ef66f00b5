/** The translation as it runs: loops that follow the pointers of a loaded image and append to vectors. */
module FlatEncode {
  import opened ByteCodec
  import opened CStrings
  import opened RecordArrays
  import opened MetadataFormat
  import opened MetadataImage
  import opened MetadataReader
  import opened FlatTranslation

  /** The loop of every translated vector: one record after the other. */
  method CopyRecords<T>(c: Codec<T>, s: seq<Byte>, base: nat, pointer: U64, n: nat) returns (xs: seq<T>)
    requires InMemory(c, s, base, pointer, n)
    ensures xs == Records(c, s, base, pointer, n)
  {
    hide Address, ReadAll;
    var records := s[Address(pointer, base)..];
    xs := [];
    FirstRecord(c, records);
    for i := 0 to n
      invariant i * c.size <= |records|
      invariant xs == ReadAll(c, records, i)
    {
      Fewer(i + 1, n, c.size);
      ReadAllNext(c, records, i);
      xs := xs + [c.dec(records[i * c.size..i * c.size + c.size])];
    }
  }

  lemma FirstRecord<T>(c: Codec<T>, s: seq<Byte>)
    ensures 0 * c.size <= |s| && ReadAll(c, s, 0) == []
  {
  }

  /** Reading one record more. */
  lemma {:induction false} ReadAllNext<T>(c: Codec<T>, s: seq<Byte>, n: nat)
    requires (n + 1) * c.size <= |s|
    ensures n * c.size <= n * c.size + c.size <= |s|
    ensures ReadAll(c, s, n + 1) == ReadAll(c, s, n) + [c.dec(s[n * c.size..n * c.size + c.size])]
  {
    var k := n * c.size;
    assert (n + 1) * c.size == k + c.size;
    if n == 0 {
      FirstOfAll(c, s);
    } else {
      var t := s[c.size..];
      assert k == (n - 1) * c.size + c.size;
      ReadAllNext(c, t, n - 1);
      SameRecord(s, c.size, k - c.size);
      ReadAllStep(c, s, n);
      ReadAllStep(c, s, n + 1);
    }
  }

  lemma FirstOfAll<T>(c: Codec<T>, s: seq<Byte>)
    requires c.size <= |s|
    ensures 1 * c.size <= |s| && 0 * c.size == 0 && ReadAll(c, s, 1) == ReadAll(c, s, 0) + [c.dec(s[0..c.size])]
  {
    assert s[..c.size] == s[0..c.size];
  }

  lemma ReadAllStep<T>(c: Codec<T>, s: seq<Byte>, n: nat)
    requires n > 0 && n * c.size <= |s|
    ensures c.size <= n * c.size && (n - 1) * c.size <= |s| - c.size
    ensures ReadAll(c, s, n) == [c.dec(s[..c.size])] + ReadAll(c, s[c.size..], n - 1)
  {
    assert n * c.size == c.size + (n - 1) * c.size;
  }

  lemma SameRecord(s: seq<Byte>, size: nat, k: nat)
    requires size + k + size <= |s|
    ensures s[size..][k..k + size] == s[k + size..k + size + size]
  {
  }

  method TranslateRequests(s: seq<Byte>, base: nat, pointer: U64, n: nat) returns (xs: seq<DmaRequest>)
    requires RequestsReadable(s, base, pointer, n)
    ensures xs == RequestsFrom(s, base, pointer, n)
  {
    hide InMemory, Records;
    var records := CopyRecords(REQUESTS, s, base, pointer, n);
    xs := [];
    for i := 0 to n
      invariant |xs| == i
      invariant forall k :: 0 <= k < i ==> xs[k] == RequestFrom(s, base, records[k])
    {
      var r := records[i];
      var semaphoreOps := CopyRecords(SEMAPHORE_OPS, s, base, r.semaphoreOps, r.numSemaphoreOps);
      var doorbellOps := CopyRecords(DOORBELL_OPS, s, base, r.doorbellOps, r.numDoorbellOps);
      xs := xs + [DmaRequest(r.num, r.hostOffset, r.devAddrSpace, r.devOffset, r.size, r.inOut, r.portId, r.mcId,
                             semaphoreOps, doorbellOps)];
    }
  }

  method TranslateTables(s: seq<Byte>, base: nat, pointer: U64, n: nat) returns (xs: seq<seq<NspEntry>>)
    requires TablesReadable(s, base, pointer, n)
    ensures xs == TablesFrom(s, base, pointer, n)
  {
    hide InMemory, Records;
    var records := CopyRecords(TABLES, s, base, pointer, n);
    xs := [];
    for i := 0 to n
      invariant |xs| == i
      invariant forall k :: 0 <= k < i ==>
        xs[k] == Records(NSP_ENTRIES, s, base, records[k].entries, records[k].numEntries)
    {
      var entries := CopyRecords(NSP_ENTRIES, s, base, records[i].entries, records[i].numEntries);
      xs := xs + [entries];
    }
  }

  method TranslateHostTable(s: seq<Byte>, base: nat, pointer: U64) returns (xs: seq<HostEntry>)
    requires HostReadable(s, base, pointer)
    ensures xs == HostFrom(s, base, pointer)
  {
    hide InMemory, Records;
    var records := CopyRecords(TABLES, s, base, pointer, 1);
    xs := CopyRecords(HOST_ENTRIES, s, base, records[0].entries, records[0].numEntries);
  }

  method TranslateName(s: seq<Byte>, base: nat, pointer: U64) returns (name: seq<Byte>)
    requires NameReadable(s, base, pointer)
    ensures name == NameFrom(s, base, pointer)
  {
    var rest := s[Address(pointer, base)..];
    name := [];
    while rest[|name|] != 0
      invariant |name| < |rest| && name == rest[..|name|] && 0 !in name
      decreases |rest| - |name|
    {
      assert exists k :: 0 <= k < |rest| && rest[k] == 0;
      name := name + [rest[|name|]];
    }
    UpToNulIs(rest, name);
  }

  /** Translates the image loaded at `base`. */
  method Translate(s: seq<Byte>, base: nat) returns (flat: Flat)
    requires |s| >= HEADER_SIZE && Readable(s, base, HeaderAt(s))
    ensures flat == Translated(s, base, HeaderAt(s))
  {
    hide HeaderAt, InMemory, Records, RequestsReadable, RequestsFrom, TablesReadable, TablesFrom, HostReadable,
      HostFrom, NameReadable, NameFrom;
    var h := HeaderAt(s);
    var t, n := h.tables, h.counts;
    var name := TranslateName(s, base, t.networkName);
    var semaphoreInitState := CopyRecords(WORDS, s, base, t.semaphoreInitState, n.numSemaphores);
    var L2TCMInitState := CopyRecords(BYTES, s, base, t.L2TCMInitState, n.L2TCMInitSize);
    var dmaRequests := TranslateRequests(s, base, t.dmaRequests, n.numDMARequests);
    var nspTables := TranslateTables(s, base, t.nspMulticastTables, h.scalars.numNSPs);
    var hostTable := TranslateHostTable(s, base, t.hostMulticastTable);
    var threads := CopyRecords(THREADS, s, base, t.threadDescriptors, n.numThreadDescriptors);
    var mappings := CopyRecords(MAPPINGS, s, base, t.constantMappings, n.numConstantMappings);
    flat := Flat(
      Content(h.versionMajor, h.versionMinor, h.scalars, name, semaphoreInitState, L2TCMInitState, dmaRequests,
              nspTables, hostTable, threads, mappings),
      n.numSemaphores, n.L2TCMInitSize);
  }
}
