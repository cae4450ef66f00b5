/** Relocating one slot of the image: what it held, what it holds then, and that nothing else changes. */
module MetadataRelocation {
  import opened Wrappers
  import opened ByteCodec
  import opened ChunkLayout
  import opened RecordArrays
  import opened MetadataFormat
  import opened MetadataImage

  /** Replaces the offset at `at` by the address it denotes; fails where the offset lies outside the buffer. */
  function Relocate(s: seq<Byte>, at: nat, base: nat): (r: Option<seq<Byte>>)
    ensures r.Some? ==> |r.value| == |s|
  {
    if at + 8 > |s| || Get(s, at, 8) > |s| then None
    else Some(Patch(s, at, LE((base + Get(s, at, 8)) % TWO64, 8)))
  }

  /** A pointer of the header. */
  lemma HeaderPointer(h: Header, j: nat)
    requires j < 8
    ensures Get(EncHeader(h), 8 + j * 8, 8) == PointerSeq(h.tables)[j]
  {
    hide *;
    HeaderIs(h);
    GetPointers(h.tables, j);
    GetOfMiddle(PutVersion(h, []), EncPointers(h.tables), EncHeaderRest(h), j * 8, 8);
  }

  lemma GetPointers(t: Tables, j: nat)
    requires j < 8
    ensures Get(EncPointers(t), j * 8, 8) == PointerSeq(t)[j]
  {
    hide EncAll, PointerSeq, LE, Get, Put1, Put2, Put4;
    CodecsAreLawful();
    EncAllGet(POINTERS, PointerSeq(t), j, 0, 8);
    GetPointer(PointerSeq(t)[j], []);
  }

  /** Overwriting a pointer of the header. */
  lemma PatchHeader(h: Header, h': Header, j: nat, v: U64)
    requires j < 8 && h' == h.(tables := h'.tables) && PointerSeq(h'.tables) == PointerSeq(h.tables)[j := v]
    ensures EncHeader(h') == Patch(EncHeader(h), 8 + j * 8, LE(v, 8))
  {
    var a, b, d := PutVersion(h, []), EncPointers(h.tables), EncHeaderRest(h);
    HeaderIs(h);
    HeaderIs(h');
    SameRest(h, h');
    PatchPointers(h.tables, h'.tables, j, v);
    hide EncHeader, EncHeaderRest, PointerSeq, PutVersion, EncPointers, LE, Patch;
    PatchMiddle(a, b, d, EncPointers(h'.tables));
    PatchPatched(a, b, d, j * 8, LE(v, 8));
  }

  lemma PatchPointers(t: Tables, t': Tables, j: nat, v: U64)
    requires j < 8 && PointerSeq(t') == PointerSeq(t)[j := v]
    ensures EncPointers(t') == Patch(EncPointers(t), j * 8, LE(v, 8))
  {
    hide EncAll, PointerSeq, LE, Patch, Put1, Put2, Put4;
    CodecsAreLawful();
    GetPointer(PointerSeq(t)[j], []);
    EncAllPatch(POINTERS, PointerSeq(t), j, 0, LE(v, 8), v);
  }

  /** Requests and tables in their arrays. */
  lemma RequestInArray(xs: seq<RequestRecord>, i: nat, at: nat)
    requires i < |xs| && at <= 40
    ensures i * 48 + at + 8 <= |EncAll(REQUESTS, xs)|
    ensures Get(EncAll(REQUESTS, xs), i * 48 + at, 8) == Get(EncRequest(xs[i]), at, 8)
    ensures forall x, v: U64 {:trigger Patch(EncRequest(xs[i]), at, LE(v, 8)), EncRequest(x)} ::
      EncRequest(x) == Patch(EncRequest(xs[i]), at, LE(v, 8)) ==>
      EncAll(REQUESTS, xs[i := x]) == Patch(EncAll(REQUESTS, xs), i * 48 + at, LE(v, 8))
  {
    hide EncAll, LE, Get, EncRequest, DecRequest;
    CodecsAreLawful();
    EncAllGet(REQUESTS, xs, i, at, 8);
    forall x, v: U64 | EncRequest(x) == Patch(EncRequest(xs[i]), at, LE(v, 8))
      ensures EncAll(REQUESTS, xs[i := x]) == Patch(EncAll(REQUESTS, xs), i * 48 + at, LE(v, 8))
    {
      EncAllPatch(REQUESTS, xs, i, at, LE(v, 8), x);
    }
  }

  lemma TableInArray(xs: seq<TableRecord>, i: nat)
    requires i < |xs|
    ensures i * 16 + 8 <= |EncAll(TABLES, xs)|
    ensures Get(EncAll(TABLES, xs), i * 16, 8) == xs[i].entries
    ensures forall v: U64 ::
      EncAll(TABLES, xs[i := xs[i].(entries := v)]) == Patch(EncAll(TABLES, xs), i * 16, LE(v, 8))
  {
    hide EncAll, LE, Get, EncTable, DecTable;
    CodecsAreLawful();
    EncAllGet(TABLES, xs, i, 0, 8);
    ReadTable(xs[i]);
    forall v: U64
      ensures EncAll(TABLES, xs[i := xs[i].(entries := v)]) == Patch(EncAll(TABLES, xs), i * 16, LE(v, 8))
    {
      PatchTable(xs[i], v);
      EncAllPatch(TABLES, xs, i, 0, LE(v, 8), xs[i].(entries := v));
    }
  }

  lemma SameRest(h: Header, h': Header)
    requires h' == h.(tables := h'.tables)
    ensures EncHeaderRest(h') == EncHeaderRest(h) && PutVersion(h', []) == PutVersion(h, [])
  {
  }

  /** The slots of the header, in the order of its fields. */
  function HeaderSlot(j: nat): Slot
    requires j < 8
  {
    [NameSlot, SemaphoreSlot, L2TCMSlot, RequestSlot, TableSlot, HostTableSlot, ThreadSlot, MappingSlot][j]
  }

  /** Relocating a slot does not change the value of another one. */
  lemma OtherSlot(c: Content, base: nat, q: Slot, p: Slot)
    requires HasSlot(c, q) && HasSlot(c, p) && p != q
    ensures SlotValue(c, base, Order(c, q) + 1, p) == SlotValue(c, base, Order(c, q), p)
  {
    hide RecordedOffset;
    assert Order(c, p) != Order(c, q);
  }

  lemma HeaderPointers(c: Content, base: nat, t: nat, j: nat)
    requires j < 8
    ensures HasSlot(c, HeaderSlot(j))
    ensures PointerSeq(HeaderOf(c, base, t).tables)[j] == SlotValue(c, base, t, HeaderSlot(j))
  {
    hide SlotValue;
  }

  /** The position of a slot of the header. */
  function HeaderPosition(q: Slot): (j: nat)
    requires Holder(q) == HeaderRegion
    ensures j < 8 && HeaderSlot(j) == q && Within(q) == 8 + j * 8
  {
    if q == NameSlot then 0 else if q == SemaphoreSlot then 1 else if q == L2TCMSlot then 2
    else if q == RequestSlot then 3 else if q == TableSlot then 4 else if q == HostTableSlot then 5
    else if q == ThreadSlot then 6 else 7
  }

  /** A slot can be read in its region. */
  lemma ReadSlot(c: Content, base: nat, t: nat, q: Slot)
    requires HasSlot(c, q)
    ensures Within(q) + 8 <= |BytesOf(c, base, t, Holder(q))|
    ensures Get(BytesOf(c, base, t, Holder(q)), Within(q), 8) == SlotValue(c, base, t, q)
  {
    hide SlotValue, Get, LE, EncAll, EncHeader, EncTable, Requests, NspTables;
    if Holder(q) == HeaderRegion {
      var j := HeaderPosition(q);
      HeaderPointers(c, base, t, j);
      HeaderPointer(HeaderOf(c, base, t), j);
    } else if q.HostEntriesSlot? {
      ReadTable(HostTableOf(c, base, t));
    } else if q.EntriesSlot? {
      TableInArray(NspTables(c, base, t), q.core);
      TableAt(c, base, t, q.core);
    } else {
      ReadRequestSlot(c, base, t, q);
    }
  }

  lemma TableAt(c: Content, base: nat, t: nat, core: nat)
    requires core < |c.nspTables|
    ensures NspTables(c, base, t)[core].entries == SlotValue(c, base, t, EntriesSlot(core))
  {
  }

  lemma ReadRequestSlot(c: Content, base: nat, t: nat, q: Slot)
    requires HasSlot(c, q) && Holder(q) == RequestRegion
    ensures Within(q) + 8 <= |EncAll(REQUESTS, Requests(c, base, t))|
    ensures Get(EncAll(REQUESTS, Requests(c, base, t)), Within(q), 8) == SlotValue(c, base, t, q)
  {
    hide SlotValue, Get, LE, EncAll, EncRequest;
    var xs := Requests(c, base, t);
    RequestInArray(xs, q.i, if q.SemaphoreOpsSlot? then 0 else 8);
    ReadRequest(xs[q.i]);
  }

  lemma ReadRequest(r: RequestRecord)
    ensures Get(EncRequest(r), 0, 8) == r.semaphoreOps && Get(EncRequest(r), 8, 8) == r.doorbellOps
  {
    hide RequestTail, Get;
    GetPointer(r.semaphoreOps, Put8(r.doorbellOps, RequestTail(r)));
    GetPointer(r.doorbellOps, RequestTail(r));
    GetOfTail(LE(r.semaphoreOps, 8), Put8(r.doorbellOps, RequestTail(r)), 0, 8);
  }

  lemma ReadTable(t: TableRecord)
    ensures Get(EncTable(t), 0, 8) == t.entries
  {
    GetPointer(t.entries, Put2(t.numEntries, LE(0, 6)));
  }

  /** Relocating a slot overwrites its eight bytes in its region. */
  lemma WriteSlot(c: Content, base: nat, q: Slot)
    requires HasSlot(c, q)
    ensures var t, r := Order(c, q), Holder(q);
            && Within(q) + 8 <= |BytesOf(c, base, t, r)|
            && BytesOf(c, base, t + 1, r)
               == Patch(BytesOf(c, base, t, r), Within(q), LE(SlotValue(c, base, t + 1, q), 8))
  {
    hide SlotValue, LE, EncAll, EncHeader, EncTable, Requests, NspTables, Patch, Order;
    var t := Order(c, q);
    if Holder(q) == HeaderRegion {
      WriteHeaderSlot(c, base, q, t, HeaderPosition(q), SlotValue(c, base, t + 1, q));
    } else if q.HostEntriesSlot? {
      PatchTable(HostTableOf(c, base, t), SlotValue(c, base, t + 1, q));
    } else if q.EntriesSlot? {
      WriteTableSlot(c, base, q.core);
    } else {
      WriteRequestSlot(c, base, q);
    }
  }

  lemma WriteHeaderSlot(c: Content, base: nat, q: Slot, t: nat, j: nat, v: U64)
    requires HasSlot(c, q) && Holder(q) == HeaderRegion
    requires t == Order(c, q) && j == HeaderPosition(q) && v == SlotValue(c, base, t + 1, q)
    ensures EncHeader(HeaderOf(c, base, t + 1)) == Patch(EncHeader(HeaderOf(c, base, t)), 8 + j * 8, LE(v, 8))
  {
    hide PointerSeq, EncHeader, LE, Patch, SlotValue, Order;
    var h, h' := HeaderOf(c, base, t), HeaderOf(c, base, t + 1);
    forall k: nat | k < 8 && k != j ensures PointerSeq(h'.tables)[k] == PointerSeq(h.tables)[k] {
      HeaderSlotsDiffer(j, k);
      HeaderPointers(c, base, t, k);
      HeaderPointers(c, base, t + 1, k);
      OtherSlot(c, base, q, HeaderSlot(k));
    }
    HeaderPointers(c, base, t + 1, j);
    assert PointerSeq(h'.tables) == PointerSeq(h.tables)[j := v];
    PatchHeader(h, h', j, v);
  }

  lemma HeaderSlotsDiffer(j: nat, k: nat)
    requires j < 8 && k < 8 && j != k
    ensures HeaderSlot(j) != HeaderSlot(k)
  {
  }

  lemma PatchTable(t: TableRecord, v: U64)
    ensures EncTable(t.(entries := v)) == Patch(EncTable(t), 0, LE(v, 8))
  {
    GetPointer(t.entries, Put2(t.numEntries, LE(0, 6)));
  }

  lemma PatchRequest(r: RequestRecord, v: U64)
    ensures EncRequest(r.(semaphoreOps := v)) == Patch(EncRequest(r), 0, LE(v, 8))
    ensures EncRequest(r.(doorbellOps := v)) == Patch(EncRequest(r), 8, LE(v, 8))
  {
    SameTail(r, v);
    hide RequestTail, LE, Patch, Put8;
    GetPointer(r.semaphoreOps, Put8(r.doorbellOps, RequestTail(r)));
    PatchSecond(r.semaphoreOps, r.doorbellOps, v, RequestTail(r));
  }

  lemma SameTail(r: RequestRecord, v: U64)
    ensures RequestTail(r.(semaphoreOps := v)) == RequestTail(r) == RequestTail(r.(doorbellOps := v))
  {
    hide Put8, Put4, Put2, Put1, LE;
  }

  lemma PatchSecond(x: U64, y: U64, v: U64, rest: seq<Byte>)
    ensures Put8(x, Put8(v, rest)) == Patch(Put8(x, Put8(y, rest)), 8, LE(v, 8))
  {
    hide LE;
    PatchMiddle(LE(x, 8), LE(y, 8), rest, LE(v, 8));
    assert LE(x, 8) + (LE(y, 8) + rest) == LE(x, 8) + LE(y, 8) + rest;
    assert LE(x, 8) + (LE(v, 8) + rest) == LE(x, 8) + LE(v, 8) + rest;
  }

  lemma WriteTableSlot(c: Content, base: nat, core: nat)
    requires core < |c.nspTables|
    ensures var q := EntriesSlot(core); var t := Order(c, q);
            && Within(q) + 8 <= |EncAll(TABLES, NspTables(c, base, t))|
            && EncAll(TABLES, NspTables(c, base, t + 1))
               == Patch(EncAll(TABLES, NspTables(c, base, t)), Within(q), LE(SlotValue(c, base, t + 1, q), 8))
  {
    hide EncAll, LE, Patch, SlotValue;
    var q := EntriesSlot(core);
    var t := Order(c, q);
    var xs, v := NspTables(c, base, t), SlotValue(c, base, t + 1, q);
    TableInArray(xs, core);
    forall k | 0 <= k < |xs| && k != core ensures NspTables(c, base, t + 1)[k] == xs[k] {
      OtherSlot(c, base, q, EntriesSlot(k));
    }
    assert NspTables(c, base, t + 1) == xs[core := xs[core].(entries := v)];
  }

  lemma WriteRequestSlot(c: Content, base: nat, q: Slot)
    requires HasSlot(c, q) && Holder(q) == RequestRegion
    ensures var t := Order(c, q);
            && Within(q) + 8 <= |EncAll(REQUESTS, Requests(c, base, t))|
            && EncAll(REQUESTS, Requests(c, base, t + 1))
               == Patch(EncAll(REQUESTS, Requests(c, base, t)), Within(q), LE(SlotValue(c, base, t + 1, q), 8))
  {
    hide EncAll, LE, Patch, SlotValue, Order, EncRequest;
    var t := Order(c, q);
    var xs, ys, v, i := Requests(c, base, t), Requests(c, base, t + 1), SlotValue(c, base, t + 1, q), q.i;
    PatchRequest(xs[i], v);
    var x := if q.SemaphoreOpsSlot? then xs[i].(semaphoreOps := v) else xs[i].(doorbellOps := v);
    RequestInArray(xs, i, if q.SemaphoreOpsSlot? then 0 else 8);
    forall k | 0 <= k < |xs| ensures ys[k] == if k == i then x else xs[k] {
      if q != SemaphoreOpsSlot(k) { OtherSlot(c, base, q, SemaphoreOpsSlot(k)); }
      if q != DoorbellOpsSlot(k) { OtherSlot(c, base, q, DoorbellOpsSlot(k)); }
    }
    assert ys == xs[i := x];
  }

  /** Relocating a slot leaves the other regions alone. */
  lemma OtherRegion(c: Content, base: nat, q: Slot, r: Region)
    requires HasSlot(c, q) && Has(c, r) && r != Holder(q)
    ensures BytesOf(c, base, Order(c, q) + 1, r) == BytesOf(c, base, Order(c, q), r)
  {
    hide SlotValue, Order, EncAll, EncHeader, EncTable, CountsOf;
    var t := Order(c, q);
    if r.RequestRegion? {
      OtherRequests(c, base, q);
    } else if r.TableRegion? {
      OtherTables(c, base, q);
    } else if r.HostTableRegion? {
      OtherSlot(c, base, q, HostEntriesSlot);
    } else if r.HeaderRegion? {
      forall k: nat | k < 8
        ensures HasSlot(c, HeaderSlot(k))
        ensures SlotValue(c, base, t + 1, HeaderSlot(k)) == SlotValue(c, base, t, HeaderSlot(k))
      {
        OtherSlot(c, base, q, HeaderSlot(k));
      }
      OtherHeader(c, base, t);
    }
  }

  lemma OtherHeader(c: Content, base: nat, t: nat)
    requires forall k: nat :: k < 8 ==>
      HasSlot(c, HeaderSlot(k)) && SlotValue(c, base, t + 1, HeaderSlot(k)) == SlotValue(c, base, t, HeaderSlot(k))
    ensures HeaderOf(c, base, t + 1) == HeaderOf(c, base, t)
  {
    hide SlotValue;
    assert HeaderSlot(0) == NameSlot && HeaderSlot(1) == SemaphoreSlot && HeaderSlot(2) == L2TCMSlot;
    assert HeaderSlot(3) == RequestSlot && HeaderSlot(4) == TableSlot && HeaderSlot(5) == HostTableSlot;
    assert HeaderSlot(6) == ThreadSlot && HeaderSlot(7) == MappingSlot;
  }

  lemma OtherRequests(c: Content, base: nat, q: Slot)
    requires HasSlot(c, q) && Holder(q) != RequestRegion
    ensures Requests(c, base, Order(c, q) + 1) == Requests(c, base, Order(c, q))
  {
    hide SlotValue, Order;
    forall k | 0 <= k < |c.dmaRequests|
      ensures Requests(c, base, Order(c, q) + 1)[k] == Requests(c, base, Order(c, q))[k]
    {
      OtherSlot(c, base, q, SemaphoreOpsSlot(k));
      OtherSlot(c, base, q, DoorbellOpsSlot(k));
    }
  }

  lemma OtherTables(c: Content, base: nat, q: Slot)
    requires HasSlot(c, q) && Holder(q) != TableRegion
    ensures NspTables(c, base, Order(c, q) + 1) == NspTables(c, base, Order(c, q))
  {
    hide SlotValue, Order;
    forall k | 0 <= k < |c.nspTables|
      ensures NspTables(c, base, Order(c, q) + 1)[k] == NspTables(c, base, Order(c, q))[k]
    {
      OtherSlot(c, base, q, EntriesSlot(k));
    }
  }

  /** The chunks after relocating a slot: one of them is overwritten. */
  lemma ChunksAfter(c: Content, base: nat, q: Slot)
    requires HasSlot(c, q)
    ensures var t, k := Order(c, q), IndexOf(c, Holder(q)); var cs := Chunks(c, base, t);
            && k < |cs| && Within(q) + 8 <= |cs[k].bytes|
            && Chunks(c, base, t + 1)
               == Updated(cs, k, Patch(cs[k].bytes, Within(q), LE(SlotValue(c, base, t + 1, q), 8)))
  {
    hide SlotValue, Order, Patch, LE, BytesOf, SpanOf, RegionNo, IndexOf, Within;
    var t, k := Order(c, q), IndexOf(c, Holder(q));
    RegionAt(c, Holder(q));
    WriteSlot(c, base, q);
    forall i | 0 <= i < Total(c) && i != k ensures Chunks(c, base, t + 1)[i] == Chunks(c, base, t)[i] {
      OtherRegion(c, base, q, RegionNo(c, i));
    }
  }

  /** Where a slot is in the image. */
  function PlaceOf(c: Content, q: Slot): nat
    requires HasSlot(c, q)
  {
    StartOf(c, Holder(q)) + Within(q)
  }

  /** Relocating slot number `t` turns the image with `t` slots relocated into the one with `t + 1`. */
  lemma RelocateSlot(c: Content, base: nat, q: Slot)
    requires HasSlot(c, q) && ImageSize(c) < TWO64
    ensures var t := Order(c, q);
            Relocate(Image(c, base, t), PlaceOf(c, q), base) == Some(Image(c, base, t + 1))
  {
    hide SlotValue, Order, LE, Get, BytesOf, Chunks, Lay, IndexOf, Within, RecordedOffset, Patch, Image;
    var t := Order(c, q);
    SlotInImage(c, base, q);
    OffsetInRange(c, base, t, Target(q));
    SlotValues(c, base, q);
  }

  lemma SlotValues(c: Content, base: nat, q: Slot)
    requires HasSlot(c, q) && ImageSize(c) < TWO64
    ensures var t := Order(c, q);
            && SlotValue(c, base, t, q) == RecordedOffset(c, Target(q))
            && SlotValue(c, base, t + 1, q) == (base + RecordedOffset(c, Target(q))) % TWO64
  {
    hide RecordedOffset, Order, Image, ImageSize;
    var offset := RecordedOffset(c, Target(q));
    OffsetInRange(c, base, 0, Target(q));
    assert offset < TWO64;
  }

  lemma SlotInImage(c: Content, base: nat, q: Slot)
    requires HasSlot(c, q)
    ensures var t := Order(c, q); var s := Image(c, base, t);
            && PlaceOf(c, q) + 8 <= |s|
            && Get(s, PlaceOf(c, q), 8) == SlotValue(c, base, t, q)
            && Image(c, base, t + 1) == Patch(s, PlaceOf(c, q), LE(SlotValue(c, base, t + 1, q), 8))
  {
    hide SlotValue, Order, LE, Get, BytesOf, Chunks, Lay, IndexOf, Within, Patch;
    var t, k := Order(c, q), IndexOf(c, Holder(q));
    var cs, v := Chunks(c, base, t), SlotValue(c, base, t + 1, q);
    ReadSlot(c, base, t, q);
    ChunksAfter(c, base, q);
    RegionLayout(c, base, t, Holder(q));
    GetInChunk(cs, k, Within(q), 8);
    PatchInChunk(cs, k, Within(q), LE(v, 8));
  }

  lemma OffsetInRange(c: Content, base: nat, t: nat, r: Region)
    requires Has(c, r)
    ensures RecordedOffset(c, r) <= ImageSize(c) == |Image(c, base, t)|
  {
    hide SpanOf, BytesOf;
    LayoutIsSafe(c, base, t, r);
  }

  /** Before any slot is relocated the base address does not matter. */
  lemma FileIsAnywhere(c: Content, base: nat)
    ensures Image(c, base, 0) == Image(c, 0, 0)
  {
    hide SlotValue, EncAll, EncHeader, EncTable, SpanOf, RegionNo;
    forall q | HasSlot(c, q) ensures SlotValue(c, base, 0, q) == SlotValue(c, 0, 0, q) { Unrelocated(c, base, q); }
    assert Requests(c, base, 0) == Requests(c, 0, 0);
    assert NspTables(c, base, 0) == NspTables(c, 0, 0);
    assert Chunks(c, base, 0) == Chunks(c, 0, 0);
  }

  lemma Unrelocated(c: Content, base: nat, q: Slot)
    requires HasSlot(c, q)
    ensures SlotValue(c, base, 0, q) == SlotValue(c, 0, 0, q)
  {
  }
}
