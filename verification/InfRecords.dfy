/**
 The kernel records of an inference handle: variable-length records in one allocation, where the builder's pointers put
 them, and the walks that find them again by arithmetic to release them.
 */
module InfRecords {
  import opened ByteCodec
  import opened DmaPipeline
  import opened InfGrouping
  import opened DmaMetaData

  datatype Dir = NoDir | ToDev | FromDev

  /** A user buffer as the kernel is to allocate it; only heap buffers are supported. */
  datatype KmdBuffer = KmdBuffer(size: nat, heap: bool)

  /** A slice entry: the part of the buffer and what the element contributes. */
  datatype SliceEntry = SliceEntry(size: U32, offset: U32, slice: Slice)

  /** A record: the create-BO request, the attach-slice header with its count, the entries, and is its channel valid? */
  datatype Record = Record(handle: U32, boSize: nat, dir: Dir, entries: seq<SliceEntry>, valid: bool)

  datatype ExecuteEntry = ExecuteEntry(handle: U32, dir: Dir, resize: nat)

  /** The batch: parts and contributions of the elements, their directions, the buffers. */
  datatype Batch = Batch(parts: seq<Part>, slices: seq<Slice>, dirs: seq<Dir>, bufs: seq<KmdBuffer>, partial: bool) {
    /** What parsing and the direction query guarantee: one contribution and direction each, buffers in range. */
    predicate WellFormed() {
      |slices| == |dirs| == |parts| && forall i :: 0 <= i < |parts| ==> parts[i].bufIndex < |bufs|
    }
  }

  /** The kernel's answer to a record: no buffer object, one that could not be sliced or mapped, or one to use. */
  datatype Answer = Refused | Unusable(handle: U32) | Ready(handle: U32)

  /** The answer to the k-th record. */
  type Kernel = nat -> Answer

  function EntryOf(b: Batch, i: nat): SliceEntry
    requires b.WellFormed() && i < |b.parts|
  {
    SliceEntry(b.parts[i].size, b.parts[i].offset, b.slices[i])
  }

  function Entries(b: Batch, start: nat, end: nat): (es: seq<SliceEntry>)
    requires b.WellFormed() && start <= end <= |b.parts|
    ensures |es| == end - start
  {
    seq(end - start, i requires 0 <= i < end - start => EntryOf(b, start + i))
  }

  /** The record of a group: its last element gives the direction and decides whether the BO has a size. */
  function RecordOf(b: Batch, g: Group, handle: U32): Record
    requires b.WellFormed() && g.count > 0 && g.start + g.count <= |b.parts|
  {
    var last := g.start + g.count - 1;
    Record(handle, if b.parts[last].size != 0 then b.bufs[b.parts[last].bufIndex].size else 0, b.dirs[last],
           Entries(b, g.start, g.start + g.count), true)
  }

  /** The k-th group's record lies in memory at `at`, and its execute entry names it. */
  predicate Recorded(b: Batch, kernel: Kernel, k: nat, g: Group, at: nat, memory: map<nat, Record>,
                     execute: ExecuteEntry)
    requires b.WellFormed()
  {
    && g.count > 0 && g.start + g.count <= |b.parts| && kernel(k).Ready?
    && at in memory && memory[at] == RecordOf(b, g, kernel(k).handle)
    && execute == ExecuteEntry(kernel(k).handle, b.dirs[g.start + g.count - 1], 0)
  }

  predicate AllRecorded(b: Batch, kernel: Kernel, gs: seq<Group>, memory: map<nat, Record>, executes: seq<ExecuteEntry>)
    requires b.WellFormed() && |executes| == |gs|
  {
    forall k :: 0 <= k < |gs| ==> Recorded(b, kernel, k, gs[k], Stepped(gs, k), memory, executes[k])
  }

  /** All records begin before `end`. */
  predicate Before(memory: map<nat, Record>, end: nat) { forall at :: at in memory ==> at < end }

  /** The groups lie in memory, each where the closed form says, with an execute entry each. */
  predicate InPlace(b: Batch, kernel: Kernel, gs: seq<Group>, memory: map<nat, Record>, executes: seq<ExecuteEntry>)
    requires b.WellFormed()
  {
    |executes| == |gs| && AllRecorded(b, kernel, gs, memory, executes) && Before(memory, Stepped(gs, |gs|))
  }

  lemma StepFarther(gs: seq<Group>, g: Group)
    ensures forall k :: 0 <= k <= |gs| ==> Stepped(gs + [g], k) == Stepped(gs, k)
    ensures Stepped(gs + [g], |gs| + 1) == Stepped(gs, |gs|) + HEADERS + SLICE_ENTRY_SIZE * g.count
  {
    forall k | 0 <= k <= |gs| ensures Stepped(gs + [g], k) == Stepped(gs, k) { SteppedPrefix(gs, g, k); }
  }

  lemma {:induction false} SteppedPrefix(gs: seq<Group>, g: Group, k: nat)
    requires k <= |gs|
    ensures Stepped(gs + [g], k) == Stepped(gs, k)
  {
    if k > 0 { SteppedPrefix(gs, g, k - 1); }
  }

  lemma {:induction false} SteppedGrows(gs: seq<Group>, j: nat, k: nat)
    requires j < k <= |gs|
    ensures Stepped(gs, j) < Stepped(gs, k)
  {
    if j < k - 1 { SteppedGrows(gs, j, k - 1); }
  }

  /** What closing a group leaves at index `k`: the new record at the end, the others where they were. */
  lemma {:induction false} RecordedMore(b: Batch, kernel: Kernel, gs: seq<Group>, memory: map<nat, Record>,
                                        executes: seq<ExecuteEntry>, g: Group, handle: U32, k: nat)
    requires b.WellFormed() && InPlace(b, kernel, gs, memory, executes) && kernel(|gs|) == Ready(handle)
    requires g.count > 0 && g.start + g.count <= |b.parts| && k <= |gs|
    ensures var e := ExecuteEntry(handle, b.dirs[g.start + g.count - 1], 0);
            Recorded(b, kernel, k, (gs + [g])[k], Stepped(gs + [g], k),
                     memory[Stepped(gs, |gs|) := RecordOf(b, g, handle)], (executes + [e])[k])
  {
    hide RecordOf, Stepped;
    StepFarther(gs, g);
    if k < |gs| {
      assert Recorded(b, kernel, k, gs[k], Stepped(gs, k), memory, executes[k]);
      SteppedGrows(gs, k, |gs|);
    }
  }

  lemma BeforeMore(memory: map<nat, Record>, end: nat, r: Record, end': nat)
    requires Before(memory, end) && end < end'
    ensures Before(memory[end := r], end')
  {
  }

  /** Closing a group adds its record behind the others. */
  lemma {:induction false} BuiltMore(b: Batch, kernel: Kernel, gs: seq<Group>, memory: map<nat, Record>,
                                     executes: seq<ExecuteEntry>, g: Group, handle: U32)
    requires b.WellFormed() && InPlace(b, kernel, gs, memory, executes) && kernel(|gs|) == Ready(handle)
    requires g.count > 0 && g.start + g.count <= |b.parts|
    ensures InPlace(b, kernel, gs + [g], memory[Stepped(gs, |gs|) := RecordOf(b, g, handle)],
                  executes + [ExecuteEntry(handle, b.dirs[g.start + g.count - 1], 0)])
  {
    var gs', e := gs + [g], ExecuteEntry(handle, b.dirs[g.start + g.count - 1], 0);
    hide RecordOf, Stepped, Recorded, AllRecorded, Before, Batch.WellFormed;
    var end, r := Stepped(gs, |gs|), RecordOf(b, g, handle);
    StepFarther(gs, g);
    BeforeMore(memory, end, r, Stepped(gs', |gs'|));
    forall k | 0 <= k < |gs'|
      ensures Recorded(b, kernel, k, gs'[k], Stepped(gs', k), memory[end := r], (executes + [e])[k])
    {
      RecordedMore(b, kernel, gs, memory, executes, g, handle, k);
    }
    AllRecordedIf(b, kernel, gs', memory[end := r], executes + [e]);
  }

  lemma AllRecordedIf(b: Batch, kernel: Kernel, gs: seq<Group>, memory: map<nat, Record>, executes: seq<ExecuteEntry>)
    requires b.WellFormed() && |executes| == |gs|
    requires forall k :: 0 <= k < |gs| ==> Recorded(b, kernel, k, gs[k], Stepped(gs, k), memory, executes[k])
    ensures AllRecorded(b, kernel, gs, memory, executes)
  {
    hide Recorded, Stepped;
  }

  lemma RecordFor(b: Batch, kernel: Kernel, gs: seq<Group>, memory: map<nat, Record>, executes: seq<ExecuteEntry>,
                  k: nat)
    requires b.WellFormed() && InPlace(b, kernel, gs, memory, executes) && k < |gs|
    ensures |executes| == |gs| && gs[k].count > 0 && gs[k].start + gs[k].count <= |b.parts|
    ensures Stepped(gs, k) in memory
    ensures var r := memory[Stepped(gs, k)];
            && r == RecordOf(b, gs[k], r.handle)
            && r.entries == Entries(b, gs[k].start, gs[k].start + gs[k].count)
            && executes[k] == ExecuteEntry(r.handle, b.dirs[gs[k].start + gs[k].count - 1], 0)
  {
    hide Entries;
  }

  // ------------------------------------------------------------------------------------------------
  // Releasing records
  // ------------------------------------------------------------------------------------------------

  /** The handles of the first `n` records, in order. */
  function Handles(kernel: Kernel, n: nat): (hs: seq<U32>)
    ensures |hs| == n
  {
    seq(n, k requires 0 <= k < n => if kernel(k).Refused? then 0 else kernel(k).handle)
  }

  /** There is a record of its size for each group, where the builder's pointers put it. */
  predicate Laid(gs: seq<Group>, memory: map<nat, Record>) {
    forall k :: 0 <= k < |gs| ==> Stepped(gs, k) in memory && |memory[Stepped(gs, k)].entries| == gs[k].count
  }

  /** The handles of those of the first `n` records whose channel is valid. */
  function ValidHandles(gs: seq<Group>, memory: map<nat, Record>, n: nat): seq<U32>
    requires n <= |gs| && Laid(gs, memory)
  {
    if n == 0 then []
    else
      var r := memory[Stepped(gs, n - 1)];
      ValidHandles(gs, memory, n - 1) + if r.valid then [r.handle] else []
  }

  /** The first `n` records are marked invalid, and nothing else is changed. */
  predicate Marked(gs: seq<Group>, before: map<nat, Record>, after: map<nat, Record>, n: nat)
    requires n <= |gs| && Laid(gs, before)
  {
    && after.Keys == before.Keys
    && (forall at :: at in before ==> after[at] == before[at] || after[at] == before[at].(valid := false))
    && (forall k :: 0 <= k < n ==> after[Stepped(gs, k)] == before[Stepped(gs, k)].(valid := false))
    && (forall k :: n <= k < |gs| ==> after[Stepped(gs, k)] == before[Stepped(gs, k)])
  }

  lemma MarkNext(gs: seq<Group>, before: map<nat, Record>, after: map<nat, Record>, n: nat)
    requires n < |gs| && Laid(gs, before) && Marked(gs, before, after, n)
    ensures Marked(gs, before, after[Stepped(gs, n) := after[Stepped(gs, n)].(valid := false)], n + 1)
  {
    hide Stepped;
    forall k | 0 <= k < |gs| && k != n ensures Stepped(gs, k) != Stepped(gs, n) {
      if k < n { SteppedGrows(gs, k, n); } else { SteppedGrows(gs, n, k); }
    }
  }

  lemma FirstRecord(gs: seq<Group>)
    ensures EntriesBefore(gs, 0) == 0
  {
  }

  lemma NextRecord(gs: seq<Group>, i: nat)
    requires i < |gs|
    ensures Stepped(gs, i) == HEADERS * i + SLICE_ENTRY_SIZE * EntriesBefore(gs, i)
    ensures EntriesBefore(gs, i + 1) == EntriesBefore(gs, i) + gs[i].count
  {
    SteppedIsClosedForm(gs, i);
  }

  /** Closes the handle of every record that is still valid and marks it; headers and entries passed lead there. */
  method FreeMemReq(memory: map<nat, Record>, numReqs: nat, ghost gs: seq<Group>)
    returns (closed: seq<U32>, memory': map<nat, Record>)
    requires numReqs == |gs| && Laid(gs, memory)
    ensures closed == ValidHandles(gs, memory, |gs|) && Marked(gs, memory, memory', |gs|)
  {
    hide Stepped, EntriesBefore;
    FirstRecord(gs);
    closed, memory' := [], memory;
    var memReqEntryProcessed := 0;
    for i := 0 to numReqs
      invariant closed == ValidHandles(gs, memory, i) && Marked(gs, memory, memory', i)
      invariant memReqEntryProcessed == EntriesBefore(gs, i)
    {
      NextRecord(gs, i);
      var at := (CREATE_BO_SIZE + ATTACH_SLICE_SIZE) * i + SLICE_ENTRY_SIZE * memReqEntryProcessed;
      assert at == Stepped(gs, i) && memory'[at] == memory[at];
      if memory'[at].valid { closed := closed + [memory'[at].handle]; }
      MarkNext(gs, memory, memory', i);
      memory' := memory'[at := memory'[at].(valid := false)];
      memReqEntryProcessed := memReqEntryProcessed + |memory'[at].entries|;
    }
  }

  /** What was built is there to be released: one handle for each record. */
  lemma {:induction false} InPlaceIsLaid(b: Batch, kernel: Kernel, gs: seq<Group>, memory: map<nat, Record>,
                                       executes: seq<ExecuteEntry>, n: nat)
    requires b.WellFormed() && InPlace(b, kernel, gs, memory, executes) && n <= |gs|
    ensures Laid(gs, memory) && ValidHandles(gs, memory, n) == Handles(kernel, n)
  {
    hide Stepped, Entries;
    forall k | 0 <= k < |gs|
      ensures Stepped(gs, k) in memory && |memory[Stepped(gs, k)].entries| == gs[k].count
    {
      RecordFor(b, kernel, gs, memory, executes, k);
    }
    if n > 0 {
      InPlaceIsLaid(b, kernel, gs, memory, executes, n - 1);
      RecordFor(b, kernel, gs, memory, executes, n - 1);
    }
  }

  /** Walking released records once more closes none of them. */
  lemma {:induction false} MarkedClosesNone(gs: seq<Group>, before: map<nat, Record>, after: map<nat, Record>, n: nat)
    requires n <= |gs| && Laid(gs, before) && Marked(gs, before, after, |gs|)
    ensures Laid(gs, after) && ValidHandles(gs, after, n) == []
  {
    hide Stepped;
    if n > 0 { MarkedClosesNone(gs, before, after, n - 1); }
  }

  /**
   The walk that also unmaps the user's buffers. It takes the record's number for the buffer's, so its index leaves the
   buffers when there are more records.
   */
  method UnprepareBuf(memory: map<nat, Record>, count: nat, bufs: seq<KmdBuffer>, mapped: seq<bool>,
                      ghost gs: seq<Group>)
    returns (ok: bool, closed: seq<U32>, memory': map<nat, Record>, mapped': seq<bool>)
    requires count == |gs| && Laid(gs, memory) && |mapped| == |bufs|
    ensures ok <==> |gs| <= |bufs|
    ensures ok ==> closed == ValidHandles(gs, memory, |gs|) && Marked(gs, memory, memory', |gs|)
    ensures ok ==> |mapped'| == |mapped|
    ensures ok ==> forall j :: 0 <= j < |mapped| ==> mapped'[j] == (mapped[j] && !(j < |gs| && bufs[j].heap))
  {
    hide Stepped, EntriesBefore;
    FirstRecord(gs);
    closed, memory', mapped' := [], memory, mapped;
    var attachSliceEntryProcessed := 0;
    for i := 0 to count
      invariant i <= |bufs| == |mapped'|
      invariant closed == ValidHandles(gs, memory, i) && Marked(gs, memory, memory', i)
      invariant forall j :: 0 <= j < |mapped| ==> mapped'[j] == (mapped[j] && !(j < i && bufs[j].heap))
      invariant attachSliceEntryProcessed == EntriesBefore(gs, i)
    {
      if i >= |bufs| { ok := false; return; }
      if mapped'[i] && bufs[i].heap { mapped' := mapped'[i := false]; }
      NextRecord(gs, i);
      var at := (CREATE_BO_SIZE + ATTACH_SLICE_SIZE) * i + SLICE_ENTRY_SIZE * attachSliceEntryProcessed;
      assert at == Stepped(gs, i) && memory'[at] == memory[at];
      if memory'[at].valid { closed := closed + [memory'[at].handle]; }
      MarkNext(gs, memory, memory', i);
      memory' := memory'[at := memory'[at].(valid := false)];
      attachSliceEntryProcessed := attachSliceEntryProcessed + |memory'[at].entries|;
    }
    ok := true;
  }
}
