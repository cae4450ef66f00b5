/** Translating a relocated image gives the content back, cut to what its counts express. */
module MetadataRoundTrip {
  import opened Wrappers
  import opened ByteCodec
  import opened CStrings
  import opened ChunkLayout
  import opened RecordArrays
  import opened MetadataFormat
  import opened MetadataImage
  import opened MetadataReader
  import opened FlatTranslation

  /** The image in memory after reading. */
  function Loaded(c: Content, base: nat): seq<Byte> { Image(c, base, AllSlots(c)) }

  /** Are these the records at an offset? */
  ghost predicate RecordsAt<T>(codec: Codec<T>, s: seq<Byte>, at: nat, xs: seq<T>) {
    at + |xs| * codec.size <= |s| && ReadAll(codec, s[at..], |xs|) == xs
  }

  /** The records of a chunk can be read where it starts. */
  lemma ChunkRecords<T(!new)>(codec: Codec<T>, cs: seq<Chunk>, k: nat, xs: seq<T>, n: nat)
    requires Aligned(cs) && k < |cs| && Lawful(codec) && cs[k].bytes == EncAll(codec, xs) && n <= |xs|
    ensures RecordsAt(codec, Lay(cs), Offset(cs, k), xs[..n])
  {
    hide EncAll, ReadAll, Lay, Offset, Before, After, Lawful, Aligned;
    SplitAt(cs, k);
    var before, bytes, after := Before(cs, k), cs[k].bytes, After(cs, k);
    assert (before + bytes + after)[|before|..] == bytes + after;
    ReadAllOfEncAll(codec, xs, after, n);
  }

  lemma ChunkIs(c: Content, base: nat, t: nat, r: Region)
    requires Has(c, r)
    ensures ChunkOf(c, base, t, r).bytes == BytesOf(c, base, t, r)
  {
  }

  /** The records of a region can be read where it starts. */
  lemma RegionRecords<T(!new)>(codec: Codec<T>, c: Content, base: nat, r: Region, xs: seq<T>, n: nat)
    requires Lawful(codec) && Has(c, r) && BytesOf(c, base, AllSlots(c), r) == EncAll(codec, xs) && n <= |xs|
    ensures RecordsAt(codec, Loaded(c, base), StartOf(c, r), xs[..n])
  {
    assert Loaded(c, base) == Lay(Chunks(c, base, AllSlots(c))) by { hide Lay, Chunks; }
    hide *;
    RegionLayout(c, base, AllSlots(c), r);
    ChunkIs(c, base, AllSlots(c), r);
    ChunkRecords(codec, Chunks(c, base, AllSlots(c)), IndexOf(c, r), xs, n);
  }

  /** The records a relocated slot points to. */
  lemma SlotRecords<T(!new)>(codec: Codec<T>, c: Content, base: nat, q: Slot, xs: seq<T>, n: nat)
    requires WellFormed(c) && HasSlot(c, q) && Order(c, q) < AllSlots(c)
    requires Lawful(codec) && BytesOf(c, base, AllSlots(c), Target(q)) == EncAll(codec, xs) && n <= |xs|
    requires xs == [] || !Skipped(c, Target(q))
    ensures InMemory(codec, Loaded(c, base), base, SlotValue(c, base, AllSlots(c), q), n)
    ensures Records(codec, Loaded(c, base), base, SlotValue(c, base, AllSlots(c), q), n) == xs[..n]
  {
    hide BytesOf, StartOf, Loaded, SlotValue, Order, EncAll, ImageSize, Address;
    FollowSlot(c, base, AllSlots(c), q);
    LoadedSize(c, base);
    if xs != [] {
      hide ReadAll;
      RegionRecords(codec, c, base, Target(q), xs, n);
    }
  }

  lemma LoadedSize(c: Content, base: nat)
    ensures |Loaded(c, base)| == ImageSize(c)
  {
    hide Image, ImageSize;
    ImageHeader(c, base, AllSlots(c));
  }

  lemma {:induction false} BytesAreThemselves(xs: seq<Byte>)
    ensures EncAll(BYTES, xs) == xs
  {
    if xs != [] {
      BytesAreThemselves(xs[1..]);
      OneByte(xs[0]);
    }
  }

  lemma OneByte(v: Byte)
    ensures EncByte(v) == [v]
  {
    assert LE(v, 1) == [v % 256] + LE(v / 256, 0);
  }

  lemma NameOf(c: Content, base: nat)
    requires WellFormed(c)
    ensures var p := SlotValue(c, base, AllSlots(c), NameSlot);
            NameReadable(Loaded(c, base), base, p) && NameFrom(Loaded(c, base), base, p) == UpToNul(c.name)
  {
    hide StartOf, SlotValue, ImageSize, Address, SpanOf, Image, UpToNul;
    var s, at := Loaded(c, base), StartOf(c, NameRegion);
    FollowSlot(c, base, AllSlots(c), NameSlot);
    LayoutIsSafe(c, base, AllSlots(c), NameRegion);
    BytesFillSpan(c, base, AllSlots(c), NameRegion);
    var end := at + |c.name| + 1;
    assert s[at..end] == c.name + [0];
    assert s[at..] == c.name + ([0] + s[end..]);
    UpToNulOf(c.name, [0] + s[end..]);
  }

  lemma OpsOf(c: Content, base: nat, i: nat)
    requires WellFormed(c) && i < CountedRequests(c)
    ensures var s, r := Loaded(c, base), RequestOf(c, base, AllSlots(c), i);
            RequestReadable(s, base, r) && RequestFrom(s, base, r) == CutRequest(c.dmaRequests[i])
  {
    hide SlotValue, StartOf, ImageSize, SpanOf, Loaded, InMemory, Records, EncAll;
    CodecsAreLawful();
    var r := c.dmaRequests[i];
    SlotRecords(SEMAPHORE_OPS, c, base, SemaphoreOpsSlot(i), r.semaphoreOps, |r.semaphoreOps| % 0x100);
    SlotRecords(DOORBELL_OPS, c, base, DoorbellOpsSlot(i), r.doorbellOps, |r.doorbellOps| % 0x100);
  }

  lemma RequestsOf(c: Content, base: nat)
    requires WellFormed(c)
    ensures var s, p, n := Loaded(c, base), SlotValue(c, base, AllSlots(c), RequestSlot), CountedRequests(c);
            RequestsReadable(s, base, p, n) && RequestsFrom(s, base, p, n) == CutRequests(c.dmaRequests)
  {
    hide SlotValue, StartOf, ImageSize, SpanOf, Loaded, InMemory, Records, EncAll, RequestReadable, RequestFrom,
      RequestOf, CutRequest;
    var s, p, n := Loaded(c, base), SlotValue(c, base, AllSlots(c), RequestSlot), CountedRequests(c);
    var xs := Requests(c, base, AllSlots(c));
    CodecsAreLawful();
    SlotRecords(REQUESTS, c, base, RequestSlot, xs, n);
    forall i | 0 <= i < n
      ensures var r := Records(REQUESTS, s, base, p, n)[i];
              RequestReadable(s, base, r) && RequestFrom(s, base, r) == CutRequest(c.dmaRequests[i])
    {
      assert Records(REQUESTS, s, base, p, n)[i] == xs[i] == RequestOf(c, base, AllSlots(c), i);
      OpsOf(c, base, i);
    }
  }

  lemma TablesOf(c: Content, base: nat)
    requires WellFormed(c)
    ensures var s, p, n := Loaded(c, base), SlotValue(c, base, AllSlots(c), TableSlot), |c.nspTables|;
            TablesReadable(s, base, p, n) && TablesFrom(s, base, p, n) == CutTables(c.nspTables)
  {
    hide SlotValue, StartOf, ImageSize, SpanOf, Loaded, InMemory, Records, EncAll;
    var s, p, n := Loaded(c, base), SlotValue(c, base, AllSlots(c), TableSlot), |c.nspTables|;
    var xs := NspTables(c, base, AllSlots(c));
    CodecsAreLawful();
    SlotRecords(TABLES, c, base, TableSlot, xs, n);
    forall i | 0 <= i < n
      ensures var t := Records(TABLES, s, base, p, n)[i];
              && InMemory(NSP_ENTRIES, s, base, t.entries, t.numEntries)
              && Records(NSP_ENTRIES, s, base, t.entries, t.numEntries) == Cut(c.nspTables[i], 0x1_0000)
    {
      assert Records(TABLES, s, base, p, n)[i] == xs[i] == TableOf(c, base, AllSlots(c), i);
      SlotRecords(NSP_ENTRIES, c, base, EntriesSlot(i), c.nspTables[i], |c.nspTables[i]| % 0x1_0000);
    }
  }

  lemma HostOf(c: Content, base: nat)
    requires WellFormed(c)
    ensures var s, p := Loaded(c, base), SlotValue(c, base, AllSlots(c), HostTableSlot);
            HostReadable(s, base, p) && HostFrom(s, base, p) == Cut(c.hostTable, 0x1_0000)
  {
    hide SlotValue, StartOf, ImageSize, SpanOf, Loaded, InMemory, Records, EncAll, EncTable;
    var t := HostTableOf(c, base, AllSlots(c));
    CodecsAreLawful();
    EncAllOne(TABLES, t);
    SlotRecords(TABLES, c, base, HostTableSlot, [t], 1);
    SlotRecords(HOST_ENTRIES, c, base, HostEntriesSlot, c.hostTable, |c.hostTable| % 0x1_0000);
  }

  lemma ArraysOf(c: Content, base: nat)
    requires WellFormed(c)
    ensures var s, t, n := Loaded(c, base), HeaderOf(c, base, AllSlots(c)).tables, CountsOf(c);
            && InMemory(WORDS, s, base, t.semaphoreInitState, n.numSemaphores)
            && Records(WORDS, s, base, t.semaphoreInitState, n.numSemaphores) == Cut(c.semaphoreInitState, 0x1_0000)
            && InMemory(BYTES, s, base, t.L2TCMInitState, n.L2TCMInitSize)
            && Records(BYTES, s, base, t.L2TCMInitState, n.L2TCMInitSize) == Cut(c.L2TCMInitState, 0x1_0000_0000)
            && InMemory(THREADS, s, base, t.threadDescriptors, n.numThreadDescriptors)
            && Records(THREADS, s, base, t.threadDescriptors, n.numThreadDescriptors) == Cut(c.threads, 0x1_0000)
            && InMemory(MAPPINGS, s, base, t.constantMappings, n.numConstantMappings)
            && Records(MAPPINGS, s, base, t.constantMappings, n.numConstantMappings) == Cut(c.mappings, 0x1_0000)
  {
    hide SlotValue, StartOf, ImageSize, SpanOf, Loaded, InMemory, Records, EncAll;
    CodecsAreLawful();
    SlotRecords(WORDS, c, base, SemaphoreSlot, c.semaphoreInitState, |c.semaphoreInitState| % 0x1_0000);
    BytesAreThemselves(c.L2TCMInitState);
    SlotRecords(BYTES, c, base, L2TCMSlot, c.L2TCMInitState, |c.L2TCMInitState| % 0x1_0000_0000);
    SlotRecords(THREADS, c, base, ThreadSlot, c.threads, |c.threads| % 0x1_0000);
    SlotRecords(MAPPINGS, c, base, MappingSlot, c.mappings, |c.mappings| % 0x1_0000);
  }

  /** What the flat form of a content holds. */
  function FlatOf(c: Content): Flat {
    Flat(Expressible(c), CountsOf(c).numSemaphores, CountsOf(c).L2TCMInitSize)
  }

  /** Following the pointers of a loaded image stays in memory and yields the content its counts express. */
  lemma TranslationOfImage(c: Content, base: nat)
    requires WellFormed(c)
    ensures var s, h := Loaded(c, base), HeaderOf(c, base, AllSlots(c));
            Readable(s, base, h) && Translated(s, base, h) == FlatOf(c)
  {
    NameOf(c, base);
    ArraysOf(c, base);
    RequestsOf(c, base);
    TablesOf(c, base);
    HostOf(c, base);
    hide SlotValue, StartOf, ImageSize, Loaded, InMemory, Records, NameReadable, NameFrom, RequestsReadable,
      RequestsFrom, TablesReadable, TablesFrom, HostReadable, HostFrom, Cut, CutRequests, CutTables, UpToNul;
  }

  /** Reading a file into memory at `base` and translating it; None where an assertion or an access fails. */
  function ReadAndTranslate(file: seq<Byte>, base: nat): Option<Flat> {
    hide Readable, HeaderAt, Translated, ReadMetadata;
    if |file| < HEADER_SIZE then None
    else
      match ReadMetadata(file, base)
      case Ready(s) =>
        if |s| >= HEADER_SIZE && Readable(s, base, HeaderAt(s)) then Some(Translated(s, base, HeaderAt(s))) else None
      case _ => None
  }

  /** Writing a content, reading it and translating it yields the content its counts express. */
  lemma RoundTrip(c: Content, base: nat)
    requires WellFormed(c) && c.versionMajor == MAJOR_VERSION && c.versionMinor == MINOR_VERSION
    ensures ReadAndTranslate(Image(c, 0, 0), base) == Some(FlatOf(c))
  {
    hide Image, HeaderAt, HeaderOf, ReadMetadata, Readable, Translated, FlatOf, WellFormed, CountsOf;
    ReaderRelocatesImages(c, base);
    TranslationOfImage(c, base);
    ImageHeader(c, base, AllSlots(c));
  }

  /** Nothing is lost exactly when the counts fit their fields and the name contains no NUL. */
  lemma RoundTripIsExactIff(c: Content, base: nat)
    requires WellFormed(c) && c.versionMajor == MAJOR_VERSION && c.versionMinor == MINOR_VERSION
    ensures (exists f :: ReadAndTranslate(Image(c, 0, 0), base) == Some(f) && f.content == c) <==> CountsFit(c)
  {
    RoundTrip(c, base);
    ExpressibleIsAllIff(c);
    hide Image, ReadAndTranslate, Expressible, CountsFit, WellFormed;
  }
}
