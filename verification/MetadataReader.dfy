/**
 The reader: it checks the version and turns every offset of the image into a pointer, in place. On every image of a
 content it succeeds, and only the pointer slots change.
 */
module MetadataReader {
  import opened Wrappers
  import opened ByteCodec
  import opened MetadataFormat
  import opened MetadataImage
  import opened MetadataRelocation

  const MAJOR_VERSION := 1
  const MINOR_VERSION := 0

  /** What reading yields; `OutOfRange` stands for a failed assertion or an access outside the buffer. */
  datatype ReadResult = VersionMismatch | OutOfRange | Ready(memory: seq<Byte>)

  /** The header as the structure at the start of the buffer. */
  function HeaderAt(s: seq<Byte>): Header
    requires |s| >= HEADER_SIZE
  {
    DecHeader(s[..HEADER_SIZE])
  }

  /** Where in a buffer at address `base` a pointer points. */
  function Address(pointer: U64, base: nat): nat {
    (pointer + TWO64 - base % TWO64) % TWO64
  }

  function RequestCount(s: seq<Byte>): U16
  {
    if |s| < HEADER_SIZE then 0 else HeaderAt(s).counts.numDMARequests
  }

  function RequestArray(s: seq<Byte>, base: nat): nat
  {
    if |s| < HEADER_SIZE then 0 else Address(HeaderAt(s).tables.dmaRequests, base)
  }

  /** The request loop from request `i` on; it looks up the array and the count anew for every request. */
  function RelocateRequests(s: seq<Byte>, base: nat, i: nat): (r: Option<seq<Byte>>)
    ensures r.Some? ==> |r.value| == |s|
    decreases 0x1_0000 - i
  {
    hide RequestCount, RequestArray, Relocate;
    if i >= RequestCount(s) then Some(s)
    else
      match Relocate(s, RequestArray(s, base) + i * 48, base) case None => None case Some(s1) =>
      match Relocate(s1, RequestArray(s1, base) + i * 48 + 8, base) case None => None case Some(s2) =>
      RelocateRequests(s2, base, i + 1)
  }

  function CoreCount(s: seq<Byte>): U16
  {
    if |s| < HEADER_SIZE then 0 else HeaderAt(s).scalars.numNSPs
  }

  function TableArray(s: seq<Byte>, base: nat): nat
  {
    if |s| < HEADER_SIZE then 0 else Address(HeaderAt(s).tables.nspMulticastTables, base)
  }

  function HostTable(s: seq<Byte>, base: nat): nat
  {
    if |s| < HEADER_SIZE then 0 else Address(HeaderAt(s).tables.hostMulticastTable, base)
  }

  /** The loop over the cores' multicast tables from `core` on. */
  function RelocateTables(s: seq<Byte>, base: nat, tables: nat, numCores: nat, core: nat): (r: Option<seq<Byte>>)
    ensures r.Some? ==> |r.value| == |s|
    decreases numCores - core
  {
    if core >= numCores then Some(s)
    else
      match Relocate(s, tables + core * 16, base) case None => None case Some(s1) =>
      RelocateTables(s1, base, tables, numCores, core + 1)
  }

  /** The pointers up to the requests. */
  function RelocateFront(s: seq<Byte>, base: nat): (r: Option<seq<Byte>>)
    ensures r.Some? ==> |r.value| == |s|
  {
    hide Relocate;
    match Relocate(s, 8, base) case None => None case Some(s1) =>
    match Relocate(s1, 16, base) case None => None case Some(s2) =>
    match Relocate(s2, 24, base) case None => None case Some(s3) =>
    Relocate(s3, 32, base)
  }

  /** The pointers behind the multicast tables of the cores. */
  function RelocateBack(s: seq<Byte>, base: nat): (r: Option<seq<Byte>>)
    ensures r.Some? ==> |r.value| == |s|
  {
    hide Relocate, HostTable;
    match Relocate(s, 48, base) case None => None case Some(s1) =>
    match Relocate(s1, HostTable(s1, base), base) case None => None case Some(s2) =>
    match Relocate(s2, 56, base) case None => None case Some(s3) =>
    Relocate(s3, 64, base)
  }

  /** The pointers of the cores' multicast tables. */
  function RelocateMiddle(s: seq<Byte>, base: nat): (r: Option<seq<Byte>>)
    ensures r.Some? ==> |r.value| == |s|
  {
    hide *;
    match Relocate(s, 40, base) case None => None case Some(s1) =>
    RelocateTables(s1, base, TableArray(s1, base), CoreCount(s1), 0)
  }

  function RelocateAll(s: seq<Byte>, base: nat): (r: Option<seq<Byte>>)
    ensures r.Some? ==> |r.value| == |s|
  {
    hide *;
    match RelocateFront(s, base) case None => None case Some(s1) =>
    match RelocateRequests(s1, base, 0) case None => None case Some(s2) =>
    match RelocateMiddle(s2, base) case None => None case Some(s3) =>
    RelocateBack(s3, base)
  }

  predicate VersionMatches(s: seq<Byte>)
    requires |s| >= HEADER_SIZE
  {
    HeaderAt(s).versionMajor == MAJOR_VERSION && HeaderAt(s).versionMinor == MINOR_VERSION
  }

  function ReadMetadata(s: seq<Byte>, base: nat): ReadResult
    requires |s| >= HEADER_SIZE
  {
    if !VersionMatches(s) then VersionMismatch
    else
      var r := RelocateAll(s, base);
      if r.None? then OutOfRange else Ready(r.value)
  }

  // ------------------------------------------------------------------------------------------------
  // Reading an image
  // ------------------------------------------------------------------------------------------------

  /** A content the writer can have produced. */
  predicate WellFormed(c: Content) {
    |c.nspTables| == c.scalars.numNSPs && ImageSize(c) < TWO64
  }

  lemma HeaderAtZero(c: Content)
    ensures StartOf(c, HeaderRegion) == 0 && HEADER_SIZE <= ImageSize(c)
  {
    hide BytesOf;
    LayoutIsSafe(c, 0, 0, HeaderRegion);
    assert Spans(c)[..0] == [];
    assert Spans(c)[0] == SpanOf(c, HeaderRegion);
  }

  lemma ImageHeader(c: Content, base: nat, t: nat)
    ensures |Image(c, base, t)| == ImageSize(c) >= HEADER_SIZE
    ensures HeaderAt(Image(c, base, t)) == HeaderOf(c, base, t)
  {
    hide Image, EncHeader, DecHeader, HeaderOf;
    HeaderAtZero(c);
    LayoutIsSafe(c, base, t, HeaderRegion);
    HeaderRoundTrip(HeaderOf(c, base, t));
  }

  lemma AddressOf(base: nat, offset: nat)
    requires offset < TWO64
    ensures Address((offset + base) % TWO64, base) == offset
  {
    var b := base % TWO64;
    assert (offset + base) % TWO64 == if offset + b < TWO64 then offset + b else offset + b - TWO64;
  }

  /** A relocated slot leads to the region it refers to. */
  lemma FollowSlot(c: Content, base: nat, t: nat, q: Slot)
    requires HasSlot(c, q) && Order(c, q) < t && ImageSize(c) < TWO64
    ensures Address(SlotValue(c, base, t, q), base) == RecordedOffset(c, Target(q)) <= ImageSize(c)
  {
    hide RecordedOffset, Order, Image, ImageSize;
    OffsetInRange(c, base, t, Target(q));
    AddressOf(base, RecordedOffset(c, Target(q)));
  }

  /** What the reader finds in the header once the slots are relocated. */
  lemma CountsAre(c: Content, base: nat, t: nat)
    requires WellFormed(c)
    ensures RequestCount(Image(c, base, t)) == CountedRequests(c)
    ensures CoreCount(Image(c, base, t)) == |c.nspTables|
  {
    hide Image, SlotValue, ImageSize, HeaderAt;
    ImageHeader(c, base, t);
  }

  lemma RequestArrayIs(c: Content, base: nat, t: nat)
    requires WellFormed(c) && c.dmaRequests != [] && t >= 4
    ensures RequestArray(Image(c, base, t), base) == StartOf(c, RequestRegion)
  {
    hide Image, SlotValue, ImageSize, HeaderAt, Address, StartOf;
    ImageHeader(c, base, t);
    FollowSlot(c, base, t, RequestSlot);
  }

  lemma TableArrayIs(c: Content, base: nat, t: nat)
    requires WellFormed(c) && t > Order(c, TableSlot)
    ensures TableArray(Image(c, base, t), base) == StartOf(c, TableRegion)
  {
    hide Image, SlotValue, ImageSize, HeaderAt, Address, StartOf;
    ImageHeader(c, base, t);
    FollowSlot(c, base, t, TableSlot);
  }

  lemma HostTableIs(c: Content, base: nat, t: nat)
    requires WellFormed(c) && t > Order(c, HostTableSlot)
    ensures HostTable(Image(c, base, t), base) == StartOf(c, HostTableRegion)
  {
    hide Image, SlotValue, ImageSize, HeaderAt, Address, StartOf;
    ImageHeader(c, base, t);
    FollowSlot(c, base, t, HostTableSlot);
  }

  /** Both pointers of request `i`. */
  lemma ReadBothPointers(c: Content, base: nat, i: nat)
    requires WellFormed(c) && i < CountedRequests(c)
    ensures var t, at := 4 + 2 * i, StartOf(c, RequestRegion) + i * 48;
            && Relocate(Image(c, base, t), at, base) == Some(Image(c, base, t + 1))
            && Relocate(Image(c, base, t + 1), at + 8, base) == Some(Image(c, base, t + 2))
  {
    hide Image, SlotValue, Relocate, StartOf, ImageSize, RecordedOffset;
    RelocateSlot(c, base, SemaphoreOpsSlot(i));
    RelocateSlot(c, base, DoorbellOpsSlot(i));
  }

  lemma NoMoreRequests(s: seq<Byte>, base: nat, i: nat)
    requires i >= RequestCount(s)
    ensures RelocateRequests(s, base, i) == Some(s)
  {
    hide RequestCount;
  }

  /** One iteration of the request loop. */
  lemma RequestIteration(s: seq<Byte>, base: nat, i: nat, s1: seq<Byte>, s2: seq<Byte>)
    requires i < RequestCount(s)
    requires Relocate(s, RequestArray(s, base) + i * 48, base) == Some(s1)
    requires Relocate(s1, RequestArray(s1, base) + i * 48 + 8, base) == Some(s2)
    ensures RelocateRequests(s, base, i) == RelocateRequests(s2, base, i + 1)
  {
    hide Relocate, RequestArray, RequestCount;
  }

  lemma ReadOneRequest(c: Content, base: nat, i: nat)
    requires WellFormed(c) && i < CountedRequests(c)
    ensures RelocateRequests(Image(c, base, 4 + 2 * i), base, i)
            == RelocateRequests(Image(c, base, 6 + 2 * i), base, i + 1)
  {
    hide *;
    var t := 4 + 2 * i;
    CountsAre(c, base, t);
    ReadBothPointers(c, base, i);
    RequestArrayIs(c, base, t);
    RequestArrayIs(c, base, t + 1);
    RequestIteration(Image(c, base, t), base, i, Image(c, base, t + 1), Image(c, base, t + 2));
  }

  lemma {:induction false} ReadRequests(c: Content, base: nat, i: nat)
    requires WellFormed(c) && i <= CountedRequests(c)
    ensures RelocateRequests(Image(c, base, 4 + 2 * i), base, i) == Some(Image(c, base, 4 + 2 * CountedRequests(c)))
    decreases CountedRequests(c) - i
  {
    hide *;
    if i == CountedRequests(c) {
      CountsAre(c, base, 4 + 2 * i);
      NoMoreRequests(Image(c, base, 4 + 2 * i), base, i);
    } else {
      ReadOneRequest(c, base, i);
      ReadRequests(c, base, i + 1);
    }
  }

  lemma {:induction false} ReadTables(c: Content, base: nat, core: nat)
    requires WellFormed(c) && core <= |c.nspTables|
    ensures var t := 5 + 2 * CountedRequests(c);
            RelocateTables(Image(c, base, t + core), base, StartOf(c, TableRegion), |c.nspTables|, core)
            == Some(Image(c, base, t + |c.nspTables|))
    decreases |c.nspTables| - core
  {
    hide Image, SlotValue, Relocate, ImageSize, SpanOf, HeaderAt, Address;
    if core < |c.nspTables| {
      RelocateSlot(c, base, EntriesSlot(core));
      ReadTables(c, base, core + 1);
    }
  }

  lemma ReadFront(c: Content, base: nat)
    requires WellFormed(c)
    ensures RelocateFront(Image(c, base, 0), base) == Some(Image(c, base, 4))
  {
    hide Image, SlotValue, Relocate, ImageSize, SpanOf, HeaderAt, Address;
    HeaderAtZero(c);
    RelocateSlot(c, base, NameSlot);
    RelocateSlot(c, base, SemaphoreSlot);
    RelocateSlot(c, base, L2TCMSlot);
    RelocateSlot(c, base, RequestSlot);
  }

  lemma ReadBack(c: Content, base: nat)
    requires WellFormed(c)
    ensures var t := 5 + 2 * CountedRequests(c) + |c.nspTables|;
            RelocateBack(Image(c, base, t), base) == Some(Image(c, base, AllSlots(c)))
  {
    var t := 5 + 2 * CountedRequests(c) + |c.nspTables|;
    hide Image, Relocate, StartOf, WellFormed, HostTable;
    HostTableIs(c, base, t + 1);
    ReadLastSlots(c, base);
  }

  lemma ReadLastSlots(c: Content, base: nat)
    requires WellFormed(c)
    ensures var t := 5 + 2 * CountedRequests(c) + |c.nspTables|;
            && Relocate(Image(c, base, t), 48, base) == Some(Image(c, base, t + 1))
            && Relocate(Image(c, base, t + 1), StartOf(c, HostTableRegion), base) == Some(Image(c, base, t + 2))
            && Relocate(Image(c, base, t + 2), 56, base) == Some(Image(c, base, t + 3))
            && Relocate(Image(c, base, t + 3), 64, base) == Some(Image(c, base, t + 4))
  {
    hide Image, SlotValue, Relocate, StartOf, ImageSize, RecordedOffset;
    HeaderAtZero(c);
    RelocateSlot(c, base, HostTableSlot);
    RelocateSlot(c, base, HostEntriesSlot);
    RelocateSlot(c, base, ThreadSlot);
    RelocateSlot(c, base, MappingSlot);
  }

  /**
   On the image of any content the reader's assertions hold, every pointer ends up at its region, and nothing else
   changes; it refuses exactly the contents of another version.
   */
  lemma ReaderRelocatesImages(c: Content, base: nat)
    requires WellFormed(c)
    ensures |Image(c, 0, 0)| >= HEADER_SIZE
    ensures ReadMetadata(Image(c, 0, 0), base) ==
            if c.versionMajor == MAJOR_VERSION && c.versionMinor == MINOR_VERSION
            then Ready(Image(c, base, AllSlots(c))) else VersionMismatch
  {
    hide Image, Relocate, StartOf, WellFormed, RelocateAll, HeaderAt;
    FileIsAnywhere(c, base);
    ImageHeader(c, base, 0);
    ReadAllSlots(c, base);
  }

  lemma ReadAllSlots(c: Content, base: nat)
    requires WellFormed(c)
    ensures RelocateAll(Image(c, base, 0), base) == Some(Image(c, base, AllSlots(c)))
  {
    hide Image, Relocate, StartOf, WellFormed, RelocateFront, RelocateBack, RelocateRequests, RelocateMiddle;
    ReadFront(c, base);
    ReadRequests(c, base, 0);
    ReadMiddle(c, base);
    ReadBack(c, base);
  }

  lemma ReadMiddle(c: Content, base: nat)
    requires WellFormed(c)
    ensures var t := 4 + 2 * CountedRequests(c);
            RelocateMiddle(Image(c, base, t), base) == Some(Image(c, base, t + 1 + |c.nspTables|))
  {
    hide Image, Relocate, StartOf, WellFormed, RelocateTables, TableArray, CoreCount;
    var t := 4 + 2 * CountedRequests(c);
    ReadTableSlot(c, base);
    CountsAre(c, base, t + 1);
    TableArrayIs(c, base, t + 1);
    ReadTables(c, base, 0);
  }

  lemma ReadTableSlot(c: Content, base: nat)
    requires WellFormed(c)
    ensures var t := 4 + 2 * CountedRequests(c);
            t == Order(c, TableSlot) && Relocate(Image(c, base, t), 40, base) == Some(Image(c, base, t + 1))
  {
    hide Image, SlotValue, Relocate, StartOf, ImageSize, RecordedOffset;
    HeaderAtZero(c);
    RelocateSlot(c, base, TableSlot);
  }
}
