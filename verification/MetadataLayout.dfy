/** Where the regions of the image start: their order, their sizes and their alignments, one after the other. */
module MetadataLayout {
  import opened ChunkLayout
  import opened MetadataImage
  import opened MetadataReader

  lemma NextStart(spans: seq<Span>, k: nat)
    requires AlignedSpans(spans) && k + 1 < |spans|
    ensures Start(spans, k + 1) == AlignTo(Start(spans, k) + spans[k].size, spans[k + 1].align)
  {
    assert spans[..k + 1][..k] == spans[..k];
  }

  /** A region starts at the next aligned offset behind the one before. */
  lemma Next(c: Content, r: Region, q: Region)
    requires Has(c, r) && Has(c, q) && IndexOf(c, q) == IndexOf(c, r) + 1
    ensures StartOf(c, q) == AlignTo(StartOf(c, r) + SpanOf(c, r).size, SpanOf(c, q).align)
  {
    hide AlignTo, SpanOf, IndexOf, RegionNo, Start;
    RegionAt(c, r);
    RegionAt(c, q);
    NextStart(Spans(c), IndexOf(c, r));
  }

  /** Where something of `n` elements is put that is to be aligned to `m`; nothing is put where the last one ends. */
  function Placed(x: nat, m: nat, n: nat): nat
    requires m >= 1
  {
    if n == 0 then x else AlignTo(x, m)
  }

  lemma NoAlignment(x: nat)
    ensures AlignTo(x, 1) == x
  {
    AlignToSpec(x, 1);
  }

  /** Header, name, semaphores, L2TCM bytes. */
  lemma FrontLayout(c: Content)
    ensures StartOf(c, HeaderRegion) == 0 && StartOf(c, NameRegion) == 160
    ensures StartOf(c, SemaphoreRegion) == Placed(160 + |c.name| + 1, 4, |c.semaphoreInitState|)
    ensures StartOf(c, L2TCMRegion) == StartOf(c, SemaphoreRegion) + 4 * |c.semaphoreInitState|
  {
    hide AlignTo, StartOf;
    HeaderAtZero(c);
    Next(c, HeaderRegion, NameRegion);
    Next(c, NameRegion, SemaphoreRegion);
    Next(c, SemaphoreRegion, L2TCMRegion);
    NoAlignment(160);
    NoAlignment(161 + |c.name|);
    NoAlignment(StartOf(c, SemaphoreRegion) + 4 * |c.semaphoreInitState|);
  }

  /** Where the operations of request `i` begin, or the requests if there is no such request. */
  function OpsFrom(c: Content, i: nat): nat
    requires i <= |c.dmaRequests|
  {
    if i == 0 then StartOf(c, L2TCMRegion) + |c.L2TCMInitState|
    else StartOf(c, DoorbellOpsOf(i - 1)) + 16 * |c.dmaRequests[i - 1].doorbellOps|
  }

  /** The semaphore and the doorbell operations, request by request, and behind them the requests. */
  lemma RequestLayout(c: Content, i: nat)
    requires i <= |c.dmaRequests|
    ensures i < |c.dmaRequests| ==>
      var r, at := c.dmaRequests[i], StartOf(c, SemaphoreOpsOf(i));
      && at == Placed(OpsFrom(c, i), 2, |r.semaphoreOps|)
      && StartOf(c, DoorbellOpsOf(i)) == Placed(at + 8 * |r.semaphoreOps|, 8, |r.doorbellOps|)
    ensures i == |c.dmaRequests| ==> StartOf(c, RequestRegion) == Placed(OpsFrom(c, i), 8, i)
  {
    hide AlignTo, StartOf;
    NoAlignment(OpsFrom(c, i));
    var before := if i == 0 then L2TCMRegion else DoorbellOpsOf(i - 1);
    if i < |c.dmaRequests| {
      NoAlignment(StartOf(c, SemaphoreOpsOf(i)) + 8 * |c.dmaRequests[i].semaphoreOps|);
      Next(c, before, SemaphoreOpsOf(i));
      Next(c, SemaphoreOpsOf(i), DoorbellOpsOf(i));
    } else {
      Next(c, before, RequestRegion);
    }
  }

  /** Where the entries of a core begin, or the tables if there is no such core. */
  function EntriesFrom(c: Content, core: nat): nat
    requires core <= |c.nspTables|
  {
    if core == 0 then StartOf(c, RequestRegion) + 48 * |c.dmaRequests|
    else StartOf(c, EntriesOf(core - 1)) + 24 * |c.nspTables[core - 1]|
  }

  /** The entries core by core, and behind them the tables. */
  lemma TableLayout(c: Content, core: nat)
    requires core <= |c.nspTables|
    ensures core < |c.nspTables| ==> StartOf(c, EntriesOf(core)) == AlignTo(EntriesFrom(c, core), 8)
    ensures core == |c.nspTables| ==> StartOf(c, TableRegion) == AlignTo(EntriesFrom(c, core), 8)
  {
    hide AlignTo, StartOf;
    var before := if core == 0 then RequestRegion else EntriesOf(core - 1);
    Next(c, before, if core < |c.nspTables| then EntriesOf(core) else TableRegion);
  }

  /** The host's entries and table, the threads, the mappings, and the end. */
  lemma BackLayout(c: Content)
    ensures StartOf(c, HostEntryRegion) == AlignTo(StartOf(c, TableRegion) + 16 * |c.nspTables|, 4)
    ensures StartOf(c, HostTableRegion) == AlignTo(StartOf(c, HostEntryRegion) + 8 * |c.hostTable|, 8)
    ensures StartOf(c, ThreadRegion) == Placed(StartOf(c, HostTableRegion) + 16, 8, |c.threads|)
    ensures StartOf(c, MappingRegion) == Placed(StartOf(c, ThreadRegion) + 16 * |c.threads|, 8, |c.mappings|)
    ensures ImageSize(c) == StartOf(c, MappingRegion) + 16 * |c.mappings|
  {
    hide AlignTo, StartOf, ImageSize;
    Next(c, TableRegion, HostEntryRegion);
    Next(c, HostEntryRegion, HostTableRegion);
    Next(c, HostTableRegion, ThreadRegion);
    Next(c, ThreadRegion, MappingRegion);
    NoAlignment(StartOf(c, HostTableRegion) + 16);
    NoAlignment(StartOf(c, ThreadRegion) + 16 * |c.threads|);
    LastRegion(c);
  }

  lemma LastRegion(c: Content)
    ensures ImageSize(c) == StartOf(c, MappingRegion) + SpanOf(c, MappingRegion).size
  {
    hide AlignTo, SpanOf;
    RegionAt(c, MappingRegion);
    var spans := Spans(c);
    assert spans[|spans| - 1] == SpanOf(c, MappingRegion);
  }
}
